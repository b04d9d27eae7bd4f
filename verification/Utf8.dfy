/** UTF-8 helpers of the server (server-common.cpp, validate_utf8 and is_valid_utf8); byte structure as in
    section 3 of RFC 3629, without its range restrictions, which the program does not check. */
module Utf8 {

  type Byte = bv8

  predicate IsContinuation(c: Byte) { c & 0xC0 == 0x80 }

  /** Length announced by a lead byte, 0 for a byte that cannot start a character. */
  function CharLen(c: Byte): (n: nat)
    ensures n <= 4 && (n > 0 ==> !IsContinuation(c))
  {
    if c <= 0x7F then 1
    else if c & 0xE0 == 0xC0 then 2
    else if c & 0xF0 == 0xE0 then 3
    else if c & 0xF8 == 0xF0 then 4
    else 0
  }

  /** The bytes by value, as in the table of section 3 of RFC 3629. */
  lemma LeadBytes(c: Byte)
    ensures IsContinuation(c) <==> 0x80 <= c <= 0xBF
    ensures CharLen(c) == 1 <==> c <= 0x7F
    ensures CharLen(c) == 2 <==> 0xC0 <= c <= 0xDF
    ensures CharLen(c) == 3 <==> 0xE0 <= c <= 0xEF
    ensures CharLen(c) == 4 <==> 0xF0 <= c <= 0xF7
  {
  }

  /** text starts with one complete character. */
  predicate StartsWithChar(text: seq<Byte>) {
    text != [] && 0 < CharLen(text[0]) <= |text| && forall j :: 1 <= j < CharLen(text[0]) ==> IsContinuation(text[j])
  }

  /** A sequence of complete characters. */
  predicate Valid(text: seq<Byte>) {
    text == [] || (StartsWithChar(text) && Valid(text[CharLen(text[0])..]))
  }

  /** is_valid_utf8: a cursor over the bytes. */
  method IsValidUtf8(text: seq<Byte>) returns (ok: bool)
    ensures ok <==> Valid(text)
  {
    var pos := 0;
    while pos < |text|
      invariant 0 <= pos <= |text| && (Valid(text) <==> Valid(text[pos..]))
    {
      var rest := text[pos..];
      var c := text[pos];
      if c <= 0x7F {
        assert StartsWithChar(rest);
        pos := pos + 1;
      } else if c & 0xE0 == 0xC0 {
        if |text| - pos < 2 || !IsContinuation(text[pos + 1]) { return false; }
        assert StartsWithChar(rest);
        pos := pos + 2;
      } else if c & 0xF0 == 0xE0 {
        if |text| - pos < 3 || !IsContinuation(text[pos + 1]) || !IsContinuation(text[pos + 2]) { return false; }
        assert StartsWithChar(rest);
        pos := pos + 3;
      } else if c & 0xF8 == 0xF0 {
        if |text| - pos < 4 || !IsContinuation(text[pos + 1]) || !IsContinuation(text[pos + 2]) ||
           !IsContinuation(text[pos + 3]) {
          return false;
        }
        assert StartsWithChar(rest);
        pos := pos + 4;
      } else {
        return false;
      }
      assert rest[CharLen(rest[0])..] == text[pos..];
    }
    ok := true;
  }

  /** The byte i places before the end starts a character longer than i bytes. */
  predicate CutAt(text: seq<Byte>, i: nat)
    requires 1 <= i <= |text|
  {
    i < CharLen(text[|text| - i]) && CharLen(text[|text| - i]) >= 2
  }

  /** validate_utf8: looks at the last four bytes for a character that is cut off. */
  function CompleteLength(text: seq<Byte>, i: nat): (n: nat)
    requires 1 <= i
    ensures n <= |text|
    decreases 5 - i
  {
    if i > 4 || i > |text| then |text|
    else if CutAt(text, i) then |text| - i
    else CompleteLength(text, i + 1)
  }

  method ValidateUtf8(text: seq<Byte>) returns (n: nat)
    ensures n == CompleteLength(text, 1)
  {
    if |text| == 0 { return 0; }
    var i := 1;
    while i <= 4 && i <= |text|
      invariant 1 <= i <= 5 && CompleteLength(text, i) == CompleteLength(text, 1)
      decreases 5 - i
    {
      var c := text[|text| - i];
      if c & 0xE0 == 0xC0 {
        if i < 2 { return |text| - i; }
      } else if c & 0xF0 == 0xE0 {
        if i < 3 { return |text| - i; }
      } else if c & 0xF8 == 0xF0 {
        if i < 4 { return |text| - i; }
      }
      i := i + 1;
    }
    n := |text|;
  }

  /** k is the end of a whole number of characters of text. */
  predicate Boundary(text: seq<Byte>, k: int) {
    k == 0 || (StartsWithChar(text) && CharLen(text[0]) <= k <= |text| &&
    Boundary(text[CharLen(text[0])..], k - CharLen(text[0])))
  }

  /** The largest boundary not above k. */
  function LastBoundary(text: seq<Byte>, k: nat): (b: nat)
    requires Valid(text) && k <= |text|
    ensures b <= k && Boundary(text, b) && Boundary(text, k) == (b == k)
    decreases |text|
  {
    if text == [] || k < CharLen(text[0]) then 0
    else CharLen(text[0]) + LastBoundary(text[CharLen(text[0])..], k - CharLen(text[0]))
  }

  lemma {:induction false} LastBoundaryIsLargest(text: seq<Byte>, k: nat, b: nat)
    requires Valid(text) && b <= k <= |text| && Boundary(text, b)
    ensures b <= LastBoundary(text, k)
    decreases |text|
  {
    if b > 0 {
      var n := CharLen(text[0]);
      LastBoundaryIsLargest(text[n..], k - n, b - n);
    }
  }

  /** A prefix ending on a boundary is itself well formed. */
  lemma {:induction false} PrefixValid(text: seq<Byte>, b: nat)
    requires Valid(text) && b <= |text| && Boundary(text, b)
    ensures Valid(text[..b])
    decreases |text|
  {
    if b > 0 {
      var n := CharLen(text[0]);
      PrefixValid(text[n..], b - n);
      assert text[..b][n..] == text[n..][..b - n];
    }
  }

  /** Where character b begins in a valid text: its lead byte announces more than k - b bytes, the rest continue it. */
  lemma {:induction false} InsideChar(text: seq<Byte>, k: nat, q: nat)
    requires Valid(text) && k <= |text| && q < k
    ensures var b := LastBoundary(text, k);
      if q < b then CharLen(text[q]) >= 2 ==> q + CharLen(text[q]) <= b
      else if q == b then CharLen(text[q]) > k - b
      else IsContinuation(text[q])
    decreases |text|
  {
    hide CharLen, IsContinuation, Boundary;
    var n := CharLen(text[0]);
    if 1 <= q < n {
      ContinuesChar(text, q);
    }
    if n <= k && q >= n {
      InsideChar(text[n..], k - n, q - n);
      assert text[n..][q - n] == text[q];
    }
  }

  lemma ContinuesChar(text: seq<Byte>, j: nat)
    requires StartsWithChar(text) && 1 <= j < CharLen(text[0])
    ensures IsContinuation(text[j]) && CharLen(text[j]) == 0
  {
  }

  /** On any cut of a valid text validate_utf8 finds the last character boundary; what it keeps is valid again. */
  lemma ValidateFindsBoundary(text: seq<Byte>, k: nat)
    requires Valid(text) && k <= |text|
    ensures var v := CompleteLength(text[..k], 1);
      v <= k && Boundary(text, v) && Valid(text[..v]) && forall b :: 0 <= b <= k && Boundary(text, b) ==> b <= v
  {
    var b := LastBoundary(text, k);
    CompleteFrom(text, k, 1);
    PrefixValid(text, b);
    forall c | 0 <= c <= k && Boundary(text, c) ensures c <= b {
      LastBoundaryIsLargest(text, k, c);
    }
  }

  lemma {:induction false} CompleteFrom(text: seq<Byte>, k: nat, i: nat)
    requires Valid(text) && k <= |text| && 1 <= i <= 5
    requires LastBoundary(text, k) < k ==> i <= k - LastBoundary(text, k)
    ensures CompleteLength(text[..k], i) == LastBoundary(text, k)
    decreases 5 - i
  {
    hide CharLen, IsContinuation, Valid, LastBoundary, Boundary;
    var b := LastBoundary(text, k);
    if b < k {
      InsideChar(text, k, b);
    }
    if i <= 4 && i <= k {
      InsideChar(text, k, k - i);
      if b == k || i < k - b {
        CompleteFrom(text, k, i + 1);
      }
    }
  }

  /** Whole characters put together stay whole: nothing is cut off at the end. */
  lemma {:induction false} ValidConcat(a: seq<Byte>, b: seq<Byte>)
    requires Valid(a) && Valid(b)
    ensures Valid(a + b)
    decreases |a|
  {
    if a == [] {
      assert a + b == b;
    } else {
      hide CharLen, StartsWithChar, Valid;
      RestValid(a);
      StartsConcat(a, b);
      var n := CharLen(a[0]);
      ValidConcat(a[n..], b);
      assert (a + b)[n..] == a[n..] + b;
      FirstValid(a + b, n);
    }
  }

  lemma RestValid(text: seq<Byte>)
    requires text != [] && Valid(text)
    ensures StartsWithChar(text) && CharLen(text[0]) <= |text| && Valid(text[CharLen(text[0])..])
  {
  }

  lemma FirstValid(text: seq<Byte>, n: nat)
    requires text != [] && StartsWithChar(text) && n == CharLen(text[0]) <= |text| && Valid(text[n..])
    ensures Valid(text)
  {
  }

  lemma StartsConcat(a: seq<Byte>, b: seq<Byte>)
    requires StartsWithChar(a)
    ensures StartsWithChar(a + b) && (a + b)[0] == a[0] && 0 < CharLen(a[0]) <= |a|
  {
  }

  lemma ValidIsComplete(text: seq<Byte>)
    requires Valid(text)
    ensures CompleteLength(text, 1) == |text|
  {
    WholeIsBoundary(text);
    assert text[..|text|] == text;
    CompleteFrom(text, |text|, 1);
  }

  lemma {:induction false} WholeIsBoundary(text: seq<Byte>)
    requires Valid(text)
    ensures Boundary(text, |text|)
    decreases |text|
  {
    if text != [] {
      WholeIsBoundary(text[CharLen(text[0])..]);
    }
  }
}
