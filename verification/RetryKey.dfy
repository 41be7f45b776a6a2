/** The retry table's primary key: the JSON array of its three components, and its decoding. */
module RetryKey {
  import opened Store

  function HexDigit(n: nat): char
    requires n < 16
  {
    "0123456789abcdef"[n]
  }

  function HexValue(c: char): Option<nat> {
    if '0' <= c <= '9' then Some(c as nat - '0' as nat)
    else if 'a' <= c <= 'f' then Some(c as nat - 'a' as nat + 10)
    else if 'A' <= c <= 'F' then Some(c as nat - 'A' as nat + 10)
    else None
  }

  /** One character inside a JSON string. */
  function EscapeChar(c: char): string {
    if c == '\"' then "\\\"" else if c == '\\' then "\\\\"
    else if c == 8 as char then "\\b" else if c == 12 as char then "\\f"
    else if c == '\n' then "\\n" else if c == '\r' then "\\r" else if c == '\t' then "\\t"
    else if c < ' ' then "\\u00" + [HexDigit(c as nat / 16), HexDigit(c as nat % 16)]
    else [c]
  }

  function Escape(s: string): string { if s == "" then "" else EscapeChar(s[0]) + Escape(s[1..]) }

  /** The character an escape after a backslash names, and how many characters it takes. */
  function Escaped(s: string): Option<(char, nat)> {
    if s == "" then None
    else if s[0] in {'\"', '\\', '/'} then Some((s[0], 1))
    else if s[0] == 'b' then Some((8 as char, 1)) else if s[0] == 'f' then Some((12 as char, 1))
    else if s[0] == 'n' then Some(('\n', 1)) else if s[0] == 'r' then Some(('\r', 1))
    else if s[0] == 't' then Some(('\t', 1))
    else if s[0] == 'u' && |s| >= 5 then
      var a, b, c, d := HexValue(s[1]), HexValue(s[2]), HexValue(s[3]), HexValue(s[4]);
      if a.None? || b.None? || c.None? || d.None? then None
      else
        var code := ((a.value * 16 + b.value) * 16 + c.value) * 16 + d.value;
        if code < 0xD800 then Some((code as char, 5)) else None
    else None
  }

  /** The rest of a JSON string after its opening quote: its characters and what follows its closing one. */
  function ReadString(s: string): (r: Option<(string, string)>)
    ensures r.Some? ==> |r.value.1| < |s|
    decreases |s|
  {
    if s == "" then None
    else if s[0] == '\"' then Some(("", s[1..]))
    else if s[0] == '\\' then
      var e := Escaped(s[1..]);
      if e.None? || e.value.1 > |s| - 1 then None
      else
        var rest := ReadString(s[1 + e.value.1..]);
        if rest.None? then None else Some(([e.value.0] + rest.value.0, rest.value.1))
    else if s[0] < ' ' then None
    else
      var rest := ReadString(s[1..]);
      if rest.None? then None else Some(([s[0]] + rest.value.0, rest.value.1))
  }

  function Encode(peer: string, table: string, record: string): string {
    "[\"" + Escape(peer) + "\"" + (",\"" + Escape(table) + "\"" + (",\"" + Escape(record) + "\"" + "]"))
  }

  function Expect(s: string, prefix: string): Option<string> {
    if prefix <= s then Some(s[|prefix|..]) else None
  }

  function ReadAfter(s: string, prefix: string): Option<(string, string)> {
    var rest := Expect(s, prefix);
    if rest.None? then None else ReadString(rest.value)
  }

  /** The three components of a key, or nothing. */
  function Decode(key: string): Option<(string, string, string)> {
    var peer := ReadAfter(key, "[\"");
    if peer.None? then None
    else
      var table := ReadAfter(peer.value.1, ",\"");
      if table.None? then None
      else
        var record := ReadAfter(table.value.1, ",\"");
        if record.None? || record.value.1 != "]" then None
        else if peer.value.0 == "" || table.value.0 == "" || record.value.0 == "" then None
        else Some((peer.value.0, table.value.0, record.value.0))
  }

  lemma HexRoundTrip(n: nat)
    requires n < 16
    ensures HexValue(HexDigit(n)) == Some(n)
  {
  }

  /** What reading a string does with its first character. */
  function Then(c: char, rest: Option<(string, string)>): Option<(string, string)> {
    if rest.None? then None else Some(([c] + rest.value.0, rest.value.1))
  }

  lemma ReadEscape(escape: string, c: char, rest: string)
    requires Escaped(escape + rest) == Some((c, |escape|))
    ensures ReadString("\\" + escape + rest) == Then(c, ReadString(rest))
  {
    var s := "\\" + escape + rest;
    assert s[1..] == escape + rest && s[1 + |escape|..] == rest;
  }

  lemma ControlEscape(c: char, rest: string)
    requires c < ' '
    ensures Escaped("u00" + [HexDigit(c as nat / 16), HexDigit(c as nat % 16)] + rest) == Some((c, 5))
  {
    HexRoundTrip(c as nat / 16);
    HexRoundTrip(c as nat % 16);
    var s := "u00" + [HexDigit(c as nat / 16), HexDigit(c as nat % 16)] + rest;
    assert s[1] == '0' && s[2] == '0' && HexValue('0') == Some(0);
    assert s[3] == HexDigit(c as nat / 16) && s[4] == HexDigit(c as nat % 16);
  }

  lemma ReadPlain(c: char, rest: string)
    requires c >= ' ' && c != '\"' && c != '\\'
    ensures ReadString([c] + rest) == Then(c, ReadString(rest))
  {
    assert ([c] + rest)[1..] == rest;
  }

  lemma ReadShort(e: char, c: char, rest: string)
    requires (e, c) in {('\"', '\"'), ('\\', '\\'), ('b', 8 as char), ('f', 12 as char), ('n', '\n'), ('r', '\r'), ('t', '\t')}
    ensures ReadString(['\\', e] + rest) == Then(c, ReadString(rest))
  {
    assert Escaped([e] + rest) == Some((c, 1));
    ReadEscape([e], c, rest);
    assert "\\" + [e] + rest == ['\\', e] + rest;
  }

  /** Every escaped character reads back as itself. */
  lemma ReadEscapedChar(c: char, rest: string)
    ensures ReadString(EscapeChar(c) + rest) == Then(c, ReadString(rest))
  {
    var escaped := EscapeChar(c);
    if |escaped| == 1 {
      ReadPlain(c, rest);
    } else if |escaped| == 2 {
      ReadShort(escaped[1], c, rest);
      assert escaped == ['\\', escaped[1]];
    } else {
      var hex := "u00" + [HexDigit(c as nat / 16), HexDigit(c as nat % 16)];
      ControlEscape(c, rest);
      ReadEscape(hex, c, rest);
      assert escaped == "\\" + hex;
    }
  }

  lemma {:induction false} ReadEscaped(s: string, rest: string)
    ensures ReadString(Escape(s) + "\"" + rest) == Some((s, rest))
  {
    if s == "" {
      assert Escape(s) + "\"" + rest == "\"" + rest;
      assert ("\"" + rest)[1..] == rest;
    } else {
      ReadEscaped(s[1..], rest);
      ReadEscapedChar(s[0], Escape(s[1..]) + "\"" + rest);
      assert Escape(s) + "\"" + rest == EscapeChar(s[0]) + (Escape(s[1..]) + "\"" + rest);
      assert [s[0]] + s[1..] == s;
    }
  }

  lemma ReadAfterPrefix(prefix: string, s: string, rest: string)
    ensures ReadAfter(prefix + Escape(s) + "\"" + rest, prefix) == Some((s, rest))
  {
    var all := prefix + Escape(s) + "\"" + rest;
    assert all[|prefix|..] == Escape(s) + "\"" + rest;
    ReadEscaped(s, rest);
  }

  /** The components come back exactly, whatever characters they hold. */
  lemma KeyRoundTrip(peer: string, table: string, record: string)
    requires peer != "" && table != "" && record != ""
    ensures Decode(Encode(peer, table, record)) == Some((peer, table, record))
  {
    var last := ",\"" + Escape(record) + "\"" + "]";
    var middle := ",\"" + Escape(table) + "\"" + last;
    ReadAfterPrefix(",\"", record, "]");
    ReadAfterPrefix(",\"", table, last);
    ReadAfterPrefix("[\"", peer, middle);
  }

  /** Distinct entries have distinct keys, so one entry has one peer, and one lock. */
  lemma KeysAreDistinct(p: (string, string, string), q: (string, string, string))
    requires p.0 != "" && p.1 != "" && p.2 != "" && q.0 != "" && q.1 != "" && q.2 != ""
    requires Encode(p.0, p.1, p.2) == Encode(q.0, q.1, q.2)
    ensures p == q
  {
    KeyRoundTrip(p.0, p.1, p.2);
    KeyRoundTrip(q.0, q.1, q.2);
  }
}
