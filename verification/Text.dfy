/** Text as the client sees it: Unicode characters with a UTF-8 width, and
    lowercasing as a map from one character to between one and three. */
module Text {

  datatype Option<+T> = None | Some(value: T)

  /** A half-open range of byte offsets. */
  datatype Range = Range(start: nat, end: nat)

  /** The bytes a character takes in UTF-8. */
  function Width(c: char): (w: nat)
    ensures 1 <= w <= 4
  {
    if c as int < 0x80 then 1
    else if c as int < 0x800 then 2
    else if c as int < 0x1_0000 then 3
    else 4
  }

  /** A width is the least one whose payload holds the character: 7 bits in
      one byte, and otherwise 7 - w bits in the first byte and 6 in each of
      the others. */
  lemma WidthIsLeast(c: char)
    ensures (c as int) < Capacity(Width(c))
    ensures Width(c) > 1 ==> c as int >= Capacity(Width(c) - 1)
  {
    assert Capacity(1) == 0x80 && Capacity(2) == 0x800;
    assert Capacity(3) == 0x1_0000 && Capacity(4) == 0x20_0000;
  }

  /** The characters that `w` bytes can tell apart. */
  function Capacity(w: nat): nat {
    if w == 0 then 0 else if w == 1 then Power2(7) else Power2(7 - w + 6 * (w - 1))
  }

  function Power2(n: nat): nat {
    if n == 0 then 1 else 2 * Power2(n - 1)
  }

  /** The length of `s` in bytes. */
  function Bytes(s: string): (n: nat)
    ensures |s| <= n
  {
    if s == [] then 0 else Bytes(s[..|s| - 1]) + Width(s[|s| - 1])
  }

  /** A lowercase mapping. It is a parameter everywhere: the Unicode tables
      are not part of this model, only their bounds are used. */
  type Lowering = f: char -> seq<char> | forall c :: 1 <= |f(c)| <= 3 witness c => [c]

  function Lower(f: Lowering, s: string): (r: string)
    ensures |s| <= |r| <= 3 * |s|
  {
    if s == [] then [] else Lower(f, s[..|s| - 1]) + f(s[|s| - 1])
  }

  lemma LowerNext(f: Lowering, s: string, i: nat, j: nat)
    requires i <= j < |s|
    ensures Lower(f, s[i..j + 1]) == Lower(f, s[i..j]) + f(s[j])
  {
    assert s[i..j + 1][..j - i] == s[i..j];
  }

  lemma LowerNothing(f: Lowering, s: string, i: nat)
    requires i <= |s|
    ensures Lower(f, s[i..i]) == []
  {
  }

  lemma BytesNext(s: string, j: nat)
    requires j < |s|
    ensures Bytes(s[..j + 1]) == Bytes(s[..j]) + Width(s[j])
  {
    assert s[..j + 1][..j] == s[..j];
  }

  lemma {:induction false} LowerSplit(f: Lowering, s: string, i: nat, a: nat, j: nat)
    requires i <= a <= j <= |s|
    ensures Lower(f, s[i..j]) == Lower(f, s[i..a]) + Lower(f, s[a..j])
    decreases j
  {
    hide Lower;
    if a == j {
      LowerNothing(f, s, a);
    } else {
      LowerSplit(f, s, i, a, j - 1);
      LowerNext(f, s, i, j - 1);
      LowerNext(f, s, a, j - 1);
    }
  }

  lemma {:induction false} BytesMonotone(s: string, i: nat, j: nat)
    requires i < j <= |s|
    ensures Bytes(s[..i]) + (j - i) <= Bytes(s[..j])
    decreases j
  {
    BytesNext(s, j - 1);
    if i < j - 1 {
      BytesMonotone(s, i, j - 1);
    }
  }

  /** A byte offset on a character boundary. */
  ghost predicate IsBoundary(s: string, at: nat) {
    exists i :: 0 <= i <= |s| && Bytes(s[..i]) == at
  }

  /** The number of characters before a boundary. */
  function CharIndex(s: string, at: nat): (i: nat)
    requires IsBoundary(s, at)
    ensures i <= |s| && Bytes(s[..i]) == at
  {
    CharIndexUpTo(s, at, |s|)
  }

  function CharIndexUpTo(s: string, at: nat, n: nat): (i: nat)
    requires n <= |s| && exists i :: 0 <= i <= n && Bytes(s[..i]) == at
    ensures i <= n && Bytes(s[..i]) == at
  {
    if Bytes(s[..n]) == at then n else CharIndexUpTo(s, at, n - 1)
  }

  /** The Unicode characters with the property White_Space. */
  predicate IsSpace(c: char) {
    || '\U{9}' <= c <= '\U{D}' || '\U{2000}' <= c <= '\U{200A}'
    || c in {' ', '\U{85}', '\U{A0}', '\U{1680}', '\U{2028}', '\U{2029}', '\U{202F}', '\U{205F}', '\U{3000}'}
  }

  function TrimStart(s: string): string {
    if s != "" && IsSpace(s[0]) then TrimStart(s[1..]) else s
  }

  function TrimEnd(s: string): string {
    if s != "" && IsSpace(s[|s| - 1]) then TrimEnd(s[..|s| - 1]) else s
  }

  function Trim(s: string): string {
    TrimEnd(TrimStart(s))
  }

  /** Trimming takes the spaces at both ends and no other character. */
  lemma TrimMeans(s: string)
    ensures exists l, r ::
              && s == l + Trim(s) + r && (forall c :: c in l + r ==> IsSpace(c))
              && (Trim(s) != "" ==> !IsSpace(Trim(s)[0]) && !IsSpace(Trim(s)[|Trim(s)| - 1]))
  {
    hide IsSpace;
    var l := StartTrimmed(s);
    var r := EndTrimmed(TrimStart(s));
    assert s == l + Trim(s) + r;
  }

  lemma TrimTwice(s: string)
    ensures Trim(Trim(s)) == Trim(s)
  {
    TrimMeans(s);
  }

  lemma {:induction false} StartTrimmed(s: string) returns (l: string)
    ensures s == l + TrimStart(s) && (forall c :: c in l ==> IsSpace(c))
    ensures TrimStart(s) != "" ==> !IsSpace(TrimStart(s)[0])
  {
    hide IsSpace;
    if s != "" && IsSpace(s[0]) {
      l := StartTrimmed(s[1..]);
      l := [s[0]] + l;
    } else {
      l := "";
    }
  }

  lemma {:induction false} EndTrimmed(s: string) returns (r: string)
    ensures s == TrimEnd(s) + r && (forall c :: c in r ==> IsSpace(c))
    ensures TrimEnd(s) != "" ==> !IsSpace(TrimEnd(s)[|TrimEnd(s)| - 1])
  {
    hide IsSpace;
    if s != "" && IsSpace(s[|s| - 1]) {
      r := EndTrimmed(s[..|s| - 1]);
      r := r + [s[|s| - 1]];
    } else {
      r := "";
    }
  }
}
