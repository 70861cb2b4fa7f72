/** The byte view of text: UTF-8 lengths and byte order. */
module Utf8 {
  /** UTF-8 length of a character. */
  function CharLen(c: char): nat {
    if c < '\U{80}' then 1 else if c < '\U{800}' then 2 else if c < '\U{10000}' then 3 else 4
  }

  /** `str::len`, in bytes. */
  function ByteLen(s: string): nat {
    if s == "" then 0 else CharLen(s[0]) + ByteLen(s[1..])
  }

  lemma {:induction false} ByteLenAppend(a: string, b: string)
    ensures ByteLen(a + b) == ByteLen(a) + ByteLen(b)
  {
    if a == "" {
      assert a + b == b;
    } else {
      ByteLenAppend(a[1..], b);
      assert (a + b)[1..] == a[1..] + b;
    }
  }

  lemma {:induction false} ByteLenPositive(s: string)
    requires s != ""
    ensures ByteLen(s) > 0
  {
  }

  // ---------- the encoding itself ----------

  /** The bytes of a character (RFC 3629, section 3). */
  function Encoded(c: char): (bs: seq<int>)
    ensures 1 <= |bs| <= 4 && forall i :: 0 <= i < |bs| ==> 0 <= bs[i] < 256
  {
    var n := c as int;
    if n < 0x80 then [n]
    else if n < 0x800 then [0xC0 + n / 64, 0x80 + n % 64]
    else if n < 0x1_0000 then [0xE0 + n / 4096, 0x80 + n / 64 % 64, 0x80 + n % 64]
    else [0xF0 + n / 262144, 0x80 + n / 4096 % 64, 0x80 + n / 64 % 64, 0x80 + n % 64]
  }

  /** How many bytes a sequence has, told from its first. */
  function SequenceLength(first: int): nat {
    if first < 0x80 then 1 else if first < 0xE0 then 2 else if first < 0xF0 then 3 else 4
  }

  /** The number behind the bytes of one character: the bits of the first after its mark, then six of each other. */
  function Number(bs: seq<int>): int
    requires 1 <= |bs| <= 4
  {
    if |bs| == 1 then bs[0]
    else if |bs| == 2 then (bs[0] - 0xC0) * 64 + (bs[1] - 0x80)
    else if |bs| == 3 then ((bs[0] - 0xE0) * 64 + (bs[1] - 0x80)) * 64 + (bs[2] - 0x80)
    else (((bs[0] - 0xF0) * 64 + (bs[1] - 0x80)) * 64 + (bs[2] - 0x80)) * 64 + (bs[3] - 0x80)
  }

  /** A character takes as many bytes as its first byte says, and they give it back. */
  lemma LengthIsEncoded(c: char)
    ensures CharLen(c) == |Encoded(c)| == SequenceLength(Encoded(c)[0])
    ensures Number(Encoded(c)) == c as int
  {
    var n := c as int;
    assert n < 0x11_0000;
    SixBits(n);
    SixBits(n / 64);
    SixBits(n / 4096);
    NestedDivision(n);
  }

  lemma SixBits(n: nat)
    ensures n / 64 * 64 + n % 64 == n
  {
  }

  lemma NestedDivision(n: nat)
    ensures n / 64 / 64 == n / 4096 && n / 4096 / 64 == n / 262144
  {
  }

  function EncodedAll(s: string): seq<int> {
    if s == "" then [] else Encoded(s[0]) + EncodedAll(s[1..])
  }

  /** The length of a text is that of its bytes. */
  lemma {:induction false} ByteLenIsEncoded(s: string)
    ensures ByteLen(s) == |EncodedAll(s)|
  {
    hide Encoded;
    if s != "" {
      LengthIsEncoded(s[0]);
      ByteLenIsEncoded(s[1..]);
    }
  }

  // ---------- order ----------

  /** Byte order of ids, which for UTF-8 is the order of their characters. */
  predicate TextLe(a: string, b: string) {
    a == "" || (b != "" && (a[0] < b[0] || (a[0] == b[0] && TextLe(a[1..], b[1..]))))
  }

  lemma {:induction false} TextLeTotal(a: string, b: string)
    ensures TextLe(a, b) || TextLe(b, a)
    ensures TextLe(a, b) && TextLe(b, a) ==> a == b
  {
    if a != "" && b != "" && a[0] == b[0] {
      TextLeTotal(a[1..], b[1..]);
      assert a == [a[0]] + a[1..] && b == [b[0]] + b[1..];
    }
  }

  lemma {:induction false} TextLeTransitive(a: string, b: string, c: string)
    requires TextLe(a, b) && TextLe(b, c)
    ensures TextLe(a, c)
  {
    if a != "" && a[0] == b[0] == c[0] { TextLeTransitive(a[1..], b[1..], c[1..]); }
  }

  /** How far two texts agree. */
  function Common(a: string, b: string): (k: nat)
    ensures k <= |a| && k <= |b| && a[..k] == b[..k]
    ensures k < |a| && k < |b| ==> a[k] != b[k]
  {
    if a == "" || b == "" || a[0] != b[0] then 0 else
      var k := 1 + Common(a[1..], b[1..]);
      assert a[..k] == [a[0]] + a[1..][..k - 1] && b[..k] == [b[0]] + b[1..][..k - 1];
      k
  }

  /** The first difference decides, and a beginning comes before the whole. */
  lemma {:induction false} TextLeExactly(a: string, b: string)
    ensures var k := Common(a, b);
            TextLe(a, b) <==> k == |a| || (k < |b| && a[k] < b[k])
  {
    if a != "" && b != "" && a[0] == b[0] { TextLeExactly(a[1..], b[1..]); }
  }
}
