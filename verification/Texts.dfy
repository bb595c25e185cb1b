/** Text helpers shared by the parsers. */
module Texts {

  datatype Option<T> = None | Some(value: T)

  function Min(a: int, b: int): int { if a < b then a else b }

  function Max(a: int, b: int): int { if a < b then b else a }

  // ---------------------------------------------------------------- digits

  predicate IsDigit(c: char) { '0' <= c <= '9' }

  predicate AllDigits(s: string) { forall i :: 0 <= i < |s| ==> IsDigit(s[i]) }

  predicate IsHexDigit(c: char) { IsDigit(c) || 'a' <= c <= 'f' || 'A' <= c <= 'F' }

  /** The value of a hexadecimal digit, zero for any other character. */
  function HexDigitValue(c: char): (v: nat)
    ensures v < 16
  {
    if IsDigit(c) then c as int - '0' as int
    else if 'a' <= c <= 'f' then c as int - 'a' as int + 10
    else if 'A' <= c <= 'F' then c as int - 'A' as int + 10
    else 0
  }

  // ---------------------------------------------------------------- positions

  function IndexByte(s: string, c: char): (i: int)
    ensures -1 <= i < |s|
    ensures i >= 0 ==> s[i] == c && c !in s[..i]
    ensures i < 0 ==> c !in s
  {
    if s == "" then -1
    else if s[0] == c then 0
    else
      var rest := IndexByte(s[1..], c);
      if rest < 0 then -1 else rest + 1
  }

  lemma {:induction false} FirstIndex(s: string, c: char, at: nat)
    requires at < |s| && s[at] == c && c !in s[..at]
    ensures IndexByte(s, c) == at
  {
    if at > 0 {
      assert s[..at][0] == s[0];
      assert s[1..][..at - 1] == s[..at][1..];
      FirstIndex(s[1..], c, at - 1);
    }
  }

  /** `text` stands in `src` at `p`. */
  predicate TextAt(src: string, p: nat, text: string) {
    p + |text| <= |src| && src[p..p + |text|] == text
  }

  lemma TextChar(src: string, p: nat, text: string, i: nat)
    requires TextAt(src, p, text) && i < |text|
    ensures p + i < |src| && src[p + i] == text[i]
  {
    assert src[p..p + |text|][i] == src[p + i];
  }

  lemma TextSplit(src: string, p: nat, a: string, b: string)
    requires TextAt(src, p, a + b)
    ensures p + |a| <= |src|
    ensures TextAt(src, p, a) && TextAt(src, p + |a|, b)
  {
    var whole := src[p..p + |a + b|];
    assert src[p..p + |a|] == whole[..|a|];
    assert src[p + |a|..p + |a| + |b|] == whole[|a|..];
  }

  /** Two lists cut alike are equal exactly when their pieces are. */
  lemma PiecewiseEqual<T>(a: seq<T>, b: seq<T>, c: seq<T>, d: seq<T>)
    requires |a| == |c|
    ensures a + b == c + d <==> a == c && b == d
  {
    if a + b == c + d {
      assert a == (a + b)[..|a|] == (c + d)[..|c|] == c;
      assert b == (a + b)[|a|..] == (c + d)[|c|..] == d;
    }
  }

  // ---------------------------------------------------------------- splitting at a separator

  function Split(s: string, sep: char): (pieces: seq<string>)
    ensures pieces != []
  {
    var at := IndexByte(s, sep);
    if at < 0 then [s] else [s[..at]] + Split(s[at + 1..], sep)
  }

  lemma SplitAt(a: string, b: string, sep: char)
    requires sep !in a
    ensures Split(a + [sep] + b, sep) == [a] + Split(b, sep)
    ensures Split(a, sep) == [a]
  {
    var s := a + [sep] + b;
    assert s[..|a|] == a && s[|a| + 1..] == b;
    FirstIndex(s, sep, |a|);
  }

  /** Joining two texts by the separator joins their pieces. */
  lemma {:induction false} SplitConcat(a: string, b: string, sep: char)
    ensures Split(a + [sep] + b, sep) == Split(a, sep) + Split(b, sep)
  {
    hide Split;
    var at := IndexByte(a, sep);
    if at < 0 {
      SplitAt(a, b, sep);
    } else {
      var head, tail := a[..at], a[at + 1..];
      SplitConcat(tail, b, sep);
      SplitAt(head, tail, sep);
      assert a == head + [sep] + tail;
      assert a + [sep] + b == head + [sep] + (tail + [sep] + b);
      SplitAt(head, tail + [sep] + b, sep);
    }
  }
}
