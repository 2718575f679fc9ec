/** The text form of a cell key in the database: row and column in decimal, joined by a colon. */
module ShardKeyText {
  import opened Grid

  const DIGITS := "0123456789"

  function NatText(n: nat): string {
    if n < 10 then [DIGITS[n]] else NatText(n / 10) + [DIGITS[n % 10]]
  }

  function IntText(n: int): string {
    if n < 0 then "-" + NatText(-n) else NatText(n)
  }

  function KeyText(key: ShardKey): string {
    IntText(key.row) + ":" + IntText(key.col)
  }

  function DigitValue(c: char): nat {
    if '0' <= c <= '9' then c as nat - '0' as nat else 0
  }

  function NatOf(text: string): nat {
    if text == "" then 0 else NatOf(text[..|text| - 1]) * 10 + DigitValue(text[|text| - 1])
  }

  function IntOf(text: string): int {
    if text != "" && text[0] == '-' then 0 - NatOf(text[1..]) else NatOf(text)
  }

  lemma {:induction false} NatRoundTrip(n: nat)
    ensures NatOf(NatText(n)) == n
    ensures NatText(n) != ""
    ensures forall i :: 0 <= i < |NatText(n)| ==> '0' <= NatText(n)[i] <= '9'
  {
    if n >= 10 {
      NatRoundTrip(n / 10);
      assert NatText(n)[..|NatText(n)| - 1] == NatText(n / 10);
    } else {
      assert NatText(n)[..0] == "";
    }
  }

  lemma IntRoundTrip(n: int)
    ensures IntOf(IntText(n)) == n
    ensures ':' !in IntText(n)
  {
    NatRoundTrip(if n < 0 then -n else n);
    if n < 0 {
      assert IntText(n)[1..] == NatText(-n);
    }
  }

  /** Different cells have different texts. */
  lemma KeyTextInjective(a: ShardKey, b: ShardKey)
    requires KeyText(a) == KeyText(b)
    ensures a == b
  {
    var (ra, rb) := (IntText(a.row), IntText(b.row));
    IntRoundTrip(a.row);
    IntRoundTrip(a.col);
    IntRoundTrip(b.row);
    IntRoundTrip(b.col);
    ColonComesFirst(a, b);
    ColonComesFirst(b, a);
    assert ra == KeyText(a)[..|ra|] && rb == KeyText(b)[..|rb|];
    assert IntText(a.col) == KeyText(a)[|ra| + 1..] && IntText(b.col) == KeyText(b)[|rb| + 1..];
  }

  lemma ColonComesFirst(a: ShardKey, b: ShardKey)
    requires KeyText(a) == KeyText(b) && ':' !in IntText(b.row)
    ensures |IntText(b.row)| <= |IntText(a.row)|
  {
    forall i | 0 <= i < |IntText(b.row)| ensures KeyText(b)[i] != ':' {
      assert KeyText(b)[i] == IntText(b.row)[i];
    }
    assert KeyText(a)[|IntText(a.row)|] == ':';
  }
}
