/** Partition keys of the shared table (backend/app/repositories/dynamodb_job_store.py:41-50).
    Owners and idempotency keys are percent-encoded byte by byte, so neither can forge another
    item's key. Texts are given as their UTF-8 bytes. */
module DynamoKeys {
  import opened Wrappers

  type byte = b: int | 0 <= b < 256

  predicate Unreserved(b: byte) {
    || 'A' as int <= b <= 'Z' as int
    || 'a' as int <= b <= 'z' as int
    || '0' as int <= b <= '9' as int
    || b == '_' as int || b == '.' as int || b == '-' as int || b == '~' as int
  }

  function HexDigit(n: int): char
    requires 0 <= n < 16
  {
    if n < 10 then (('0' as int) + n) as char else (('A' as int) + n - 10) as char
  }

  function HexValue(c: char): Option<int> {
    if '0' <= c <= '9' then Some(c as int - '0' as int)
    else if 'A' <= c <= 'F' then Some(c as int - 'A' as int + 10)
    else None
  }

  function QuoteByte(b: byte): string {
    if Unreserved(b) then [b as char] else ['%', HexDigit(b / 16), HexDigit(b % 16)]
  }

  function Quote(text: seq<byte>): string {
    if text == [] then "" else QuoteByte(text[0]) + Quote(text[1..])
  }

  /** Reads a quoted text back. */
  function Unquote(s: string): Option<seq<byte>>
    decreases |s|
  {
    if s == "" then Some([])
    else if s[0] == '%' then
      if |s| < 3 || HexValue(s[1]).None? || HexValue(s[2]).None? then None
      else
        var rest := Unquote(s[3..]);
        if rest.None? then None else Some([16 * HexValue(s[1]).value + HexValue(s[2]).value] + rest.value)
    else if s[0] as int < 256 then
      var rest := Unquote(s[1..]);
      if rest.None? then None else Some([s[0] as int] + rest.value)
    else None
  }

  lemma HexRoundTrip(n: int)
    requires 0 <= n < 16
    ensures HexValue(HexDigit(n)) == Some(n) && HexDigit(n) != '#'
  {
  }

  lemma {:induction false} QuoteRoundTrip(text: seq<byte>)
    ensures Unquote(Quote(text)) == Some(text)
    ensures '#' !in Quote(text)
  {
    if text != [] {
      var b := text[0];
      QuoteRoundTrip(text[1..]);
      HexRoundTrip(b / 16);
      HexRoundTrip(b % 16);
      var q := Quote(text);
      if Unreserved(b) {
        assert q[1..] == Quote(text[1..]);
      } else {
        assert q[3..] == Quote(text[1..]);
      }
      assert text == [b] + text[1..];
    }
  }

  function JobPk(id: string): string {
    "JOB#" + id
  }

  function IdemPk(owner: seq<byte>, key: seq<byte>): string {
    "IDEM#" + Quote(owner) + "#" + Quote(key)
  }

  function SlotsPk(owner: seq<byte>): string {
    "SLOTS#" + Quote(owner)
  }

  lemma {:induction false} FirstHashSplits(a: string, b: string, c: string, d: string)
    requires a + "#" + b == c + "#" + d
    requires '#' !in a && '#' !in c
    ensures a == c && b == d
  {
    assert (a + "#" + b)[0] == if a == "" then '#' else a[0];
    assert (c + "#" + d)[0] == if c == "" then '#' else c[0];
    assert a != "" ==> a[0] in a;
    assert c != "" ==> c[0] in c;
    assert a == "" <==> c == "";
    assert (a + "#" + b)[1..] == if a == "" then b else a[1..] + "#" + b;
    assert (c + "#" + d)[1..] == if c == "" then d else c[1..] + "#" + d;
    if a != "" {
      FirstHashSplits(a[1..], b, c[1..], d);
      assert a == [a[0]] + a[1..] && c == [c[0]] + c[1..];
    }
  }

  lemma PrefixedHashSplits(p: string, a: string, b: string, c: string, d: string)
    requires p + a + "#" + b == p + c + "#" + d
    requires '#' !in a && '#' !in c
    ensures a == c && b == d
  {
    assert (p + a + "#" + b)[|p|..] == a + "#" + b;
    assert (p + c + "#" + d)[|p|..] == c + "#" + d;
    FirstHashSplits(a, b, c, d);
  }

  /** Different owners or keys never share an idempotency item. */
  lemma IdemKeysAreDistinct(o1: seq<byte>, k1: seq<byte>, o2: seq<byte>, k2: seq<byte>)
    requires IdemPk(o1, k1) == IdemPk(o2, k2)
    ensures o1 == o2 && k1 == k2
  {
    QuoteRoundTrip(o1);
    QuoteRoundTrip(o2);
    QuoteRoundTrip(k1);
    QuoteRoundTrip(k2);
    PrefixedHashSplits("IDEM#", Quote(o1), Quote(k1), Quote(o2), Quote(k2));
  }

  lemma SlotKeysAreDistinct(o1: seq<byte>, o2: seq<byte>)
    requires SlotsPk(o1) == SlotsPk(o2)
    ensures o1 == o2
  {
    QuoteRoundTrip(o1);
    QuoteRoundTrip(o2);
    assert SlotsPk(o1)[|"SLOTS#"|..] == Quote(o1) && SlotsPk(o2)[|"SLOTS#"|..] == Quote(o2);
  }

  /** The three kinds of item never collide. */
  lemma KindsAreDistinct(id: string, o1: seq<byte>, k: seq<byte>, o2: seq<byte>)
    ensures JobPk(id) != IdemPk(o1, k) && JobPk(id) != SlotsPk(o2) && IdemPk(o1, k) != SlotsPk(o2)
  {
    assert JobPk(id)[0] == 'J' && IdemPk(o1, k)[0] == 'I' && SlotsPk(o2)[0] == 'S';
  }
}
