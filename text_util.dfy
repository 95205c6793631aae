/** The two string helpers of the interpreter header: `Split` (a `strtok` loop) and
    `SubReplace` (replace the first occurrence until none is left). */
module TextUtil {
  import opened Common

  /** Why `Split` cannot produce a result: `strtok` found no piece at all and the source
      then builds a `std::string` from a null pointer. */
  datatype SplitError = NullPiece

  /** The delimiter set of a `strtok` splitter string: each of its characters. */
  function Delims(splitter: string): set<char> {
    set c | c in splitter
  }

  /** Length of the run of non-delimiter characters that starts `s`. */
  function RunLen(s: string, d: set<char>): (k: nat)
    ensures k <= |s|
    ensures forall j :: 0 <= j < k ==> s[j] !in d
    ensures k < |s| ==> s[k] in d
  {
    if s == [] || s[0] in d then 0 else 1 + RunLen(s[1..], d)
  }

  /** The pieces `strtok` returns for `s`: maximal runs of non-delimiter characters, in
      order; empty pieces never appear. */
  function Pieces(s: string, d: set<char>): seq<string>
    decreases |s|
  {
    if s == [] then []
    else if s[0] in d then Pieces(s[1..], d)
    else
      var k := RunLen(s, d);
      [s[..k]] + Pieces(s[k..], d)
  }

  /** A run bounded by the end of `s` or by a delimiter has the length `RunLen` gives. */
  lemma RunLenUnique(s: string, d: set<char>, k: nat)
    requires k <= |s|
    requires forall j :: 0 <= j < k ==> s[j] !in d
    requires k == |s| || s[k] in d
    ensures RunLen(s, d) == k
  {
  }

  /** A piece `strtok` can return: non-empty and free of delimiters. */
  predicate IsPiece(p: string, d: set<char>) {
    p != [] && forall j :: 0 <= j < |p| ==> p[j] !in d
  }

  /** Every piece is non-empty and free of delimiters. */
  lemma {:induction false} PiecesWellFormed(s: string, d: set<char>)
    ensures forall i :: 0 <= i < |Pieces(s, d)| ==> IsPiece(Pieces(s, d)[i], d)
    decreases |s|
  {
    if s == [] {
    } else if s[0] in d {
      PiecesWellFormed(s[1..], d);
    } else {
      var k := RunLen(s, d);
      PiecesWellFormed(s[k..], d);
      assert Pieces(s, d) == [s[..k]] + Pieces(s[k..], d);
      assert IsPiece(s[..k], d);
    }
  }

  /** No piece at all exactly when every character of `s` is a delimiter. */
  lemma {:induction false} PiecesEmptyIff(s: string, d: set<char>)
    ensures Pieces(s, d) == [] <==> forall c :: c in s ==> c in d
    decreases |s|
  {
    if s == [] {
    } else if s[0] in d {
      PiecesEmptyIff(s[1..], d);
      assert forall c :: c in s ==> c == s[0] || c in s[1..];
    } else {
      assert s[0] in s;
    }
  }

  /** Splitting re-joined pieces gives the pieces back: the round trip of `strtok` with
      any one delimiter character as separator. */
  lemma {:induction false} PiecesOfJoin(parts: seq<string>, c: char, d: set<char>)
    requires c in d
    requires forall i :: 0 <= i < |parts| ==> IsPiece(parts[i], d)
    ensures Pieces(Join(parts, [c]), d) == parts
    decreases |parts|
  {
    if |parts| == 0 {
    } else if |parts| == 1 {
      var x := parts[0];
      assert IsPiece(x, d);
      RunLenUnique(x, d, |x|);
      assert x[|x|..] == [];
      assert x[..|x|] == x;
    } else {
      var x := parts[0];
      assert IsPiece(x, d);
      var s := Join(parts, [c]);
      var tail := Join(parts[1..], [c]);
      assert s == x + [c] + tail;
      assert forall j :: 0 <= j < |x| ==> s[j] == x[j];
      assert s[|x|] == c;
      RunLenUnique(s, d, |x|);
      assert s[..|x|] == x;
      assert s[|x|..][1..] == tail;
      assert Pieces(s[|x|..], d) == Pieces(tail, d);
      assert forall i :: 0 <= i < |parts[1..]| ==> parts[1..][i] == parts[i + 1];
      PiecesOfJoin(parts[1..], c, d);
    }
  }

  /** A delimiter at `i` contributes no piece. */
  lemma PiecesSkip(s: string, i: nat, d: set<char>)
    requires i < |s| && s[i] in d
    ensures Pieces(s[i..], d) == Pieces(s[i + 1..], d)
  {
    assert s[i..][1..] == s[i + 1..];
  }

  /** A maximal run of non-delimiters from `i` to `j` is the next piece. */
  lemma PiecesTake(s: string, i: nat, j: nat, d: set<char>)
    requires i < j <= |s| && s[i] !in d
    requires forall k :: i <= k < j ==> s[k] !in d
    requires j == |s| || s[j] in d
    ensures Pieces(s[i..], d) == [s[i..j]] + Pieces(s[j..], d)
  {
    var t := s[i..];
    RunLenUnique(t, d, j - i);
    assert t[..j - i] == s[i..j];
    assert t[j - i..] == s[j..];
  }

  /** `Split` at yan-lang.hpp:300: the `strtok` loop. The first call yields no piece
      exactly when every character is a delimiter; the source then fails. */
  method Split(str: string, splitter: string) returns (r: Result<seq<string>, SplitError>)
    ensures r.Ok? <==> Pieces(str, Delims(splitter)) != []
    ensures r.Ok? ==> r.value == Pieces(str, Delims(splitter))
  {
    var d := Delims(splitter);
    var tokens: seq<string> := [];
    var i := 0;
    while true
      invariant 0 <= i <= |str|
      invariant tokens + Pieces(str[i..], d) == Pieces(str, d)
      decreases |str| - i
    {
      // strtok skips leading delimiters
      while i < |str| && str[i] in d
        invariant 0 <= i <= |str|
        invariant tokens + Pieces(str[i..], d) == Pieces(str, d)
      {
        PiecesSkip(str, i, d);
        i := i + 1;
      }
      if i == |str| {
        break;
      }
      var j := i;
      while j < |str| && str[j] !in d
        invariant i <= j <= |str|
        invariant forall k :: i <= k < j ==> str[k] !in d
      {
        j := j + 1;
      }
      PiecesTake(str, i, j, d);
      tokens := tokens + [str[i..j]];
      i := j;
    }
    assert str[|str|..] == [];
    if tokens == [] {
      r := Err(NullPiece);
    } else {
      r := Ok(tokens);
    }
  }

  /** Position of the first occurrence of `sub` in `s` at or after `from`
      (std::wstring::find); an empty `sub` is found at `from`. */
  function FindFrom(s: string, sub: string, from: nat): (r: Option<nat>)
    requires from <= |s|
    ensures r.Some? ==> from <= r.value && OccursAt(s, sub, r.value)
    ensures r.Some? ==> forall j :: from <= j < r.value ==> !OccursAt(s, sub, j)
    ensures r.None? ==> forall j :: from <= j ==> !OccursAt(s, sub, j)
    decreases |s| - from
  {
    if OccursAt(s, sub, from) then Some(from)
    else if from + |sub| >= |s| then None
    else FindFrom(s, sub, from + 1)
  }

  /** The text `SubReplace` computes: replace the first occurrence of `sub` by
      `replacement` and search again from the start, until `sub` no longer occurs.
      A replacement shorter than the pattern makes every round shorten the text. */
  function SubReplaced(s: string, sub: string, replacement: string): (r: string)
    requires |replacement| < |sub|
    ensures |r| <= |s|
    decreases |s|
  {
    match FindFrom(s, sub, 0)
    case None => s
    case Some(p) => SubReplaced(s[..p] + replacement + s[p + |sub|..], sub, replacement)
  }

  /** `SubReplaced` leaves no occurrence of the pattern, and returns a text that has none
      unchanged. */
  lemma {:induction false} SubReplacedLeavesNone(s: string, sub: string, replacement: string)
    requires |replacement| < |sub|
    ensures forall j :: !OccursAt(SubReplaced(s, sub, replacement), sub, j)
    ensures (forall j :: !OccursAt(s, sub, j)) ==> SubReplaced(s, sub, replacement) == s
    decreases |s|
  {
    match FindFrom(s, sub, 0)
    case None =>
    case Some(p) =>
      SubReplacedStep(s, sub, replacement, p);
      SubReplacedLeavesNone(s[..p] + replacement + s[p + |sub|..], sub, replacement);
  }

  /** One round of `SubReplaced`: the first occurrence found is replaced. */
  lemma {:induction false} SubReplacedStep(s: string, sub: string, replacement: string, p: nat)
    requires |replacement| < |sub|
    requires FindFrom(s, sub, 0) == Some(p)
    ensures p + |sub| <= |s| && s[p..p + |sub|] == sub
    ensures |s[..p] + replacement + s[p + |sub|..]| < |s|
    ensures SubReplaced(s, sub, replacement) == SubReplaced(s[..p] + replacement + s[p + |sub|..], sub, replacement)
  {
    assert OccursAt(s, sub, p);
    var t := s[..p] + replacement + s[p + |sub|..];
    assert |t| == |s| - |sub| + |replacement|;
  }

  /** `s` with every `c` removed, one character at a time. */
  function Without(s: string, c: char): string {
    if s == [] then [] else (if s[0] == c then [] else [s[0]]) + Without(s[1..], c)
  }

  lemma {:induction false} WithoutConcat(a: string, b: string, c: char)
    ensures Without(a + b, c) == Without(a, c) + Without(b, c)
    decreases |a|
  {
    if a == [] {
      assert a + b == b;
    } else {
      assert (a + b)[1..] == a[1..] + b;
      WithoutConcat(a[1..], b, c);
    }
  }

  lemma {:induction false} WithoutAbsent(s: string, c: char)
    requires forall k :: 0 <= k < |s| ==> s[k] != c
    ensures Without(s, c) == s
    decreases |s|
  {
    if s != [] {
      WithoutAbsent(s[1..], c);
    }
  }

  /** Removing every `c` from a text is the same after one `c` is dropped. */
  lemma WithoutDropsOne(s: string, p: nat, c: char)
    requires p < |s| && s[p] == c
    ensures Without(s, c) == Without(s[..p] + s[p + 1..], c)
  {
    assert s == s[..p] + [c] + s[p + 1..];
    WithoutConcat(s[..p], s[p + 1..], c);
    WithoutConcat(s[..p] + [c], s[p + 1..], c);
    WithoutConcat(s[..p], [c], c);
  }

  /** A text in which the one-character pattern `[c]` does not occur has no `c`. */
  lemma NoCharacterOccurrence(s: string, c: char)
    requires forall j :: !OccursAt(s, [c], j)
    ensures Without(s, c) == s
  {
    forall k | 0 <= k < |s|
      ensures s[k] != c
    {
      assert !OccursAt(s, [c], k);
      assert s[k..k + 1] == [s[k]];
    }
    WithoutAbsent(s, c);
  }

  /** The one use of `SubReplace` in the interpreter (yan-lang.hpp:347) removes a single
      character by replacing it with nothing: the result is the text without that
      character. */
  lemma {:induction false} SubReplaceRemovesCharacter(s: string, c: char)
    ensures SubReplaced(s, [c], "") == Without(s, c)
    decreases |s|
  {
    match FindFrom(s, [c], 0)
    case None =>
      NoCharacterOccurrence(s, c);
    case Some(p) =>
      SubReplacedStep(s, [c], "", p);
      assert s[p] == c by {
        assert s[p..p + 1] == [c] && s[p..p + 1][0] == s[p];
      }
      WithoutDropsOne(s, p, c);
      var t := s[..p] + s[p + 1..];
      assert s[..p] + "" + s[p + 1..] == t;
      SubReplaceRemovesCharacter(t, c);
  }

  /** `SubReplace` at yan-lang.hpp:290: find the first occurrence of `sub`, replace it,
      and search again from the start, until no occurrence is left. */
  method SubReplace(resource: string, sub: string, replacement: string) returns (dst: string)
    requires |replacement| < |sub|
    ensures dst == SubReplaced(resource, sub, replacement)
  {
    dst := resource;
    var pos := FindFrom(dst, sub, 0);
    while pos.Some?
      invariant pos == FindFrom(dst, sub, 0)
      invariant SubReplaced(dst, sub, replacement) == SubReplaced(resource, sub, replacement)
      decreases |dst|
    {
      var p := pos.value;
      SubReplacedStep(dst, sub, replacement, p);
      dst := dst[..p] + replacement + dst[p + |sub|..];
      pos := FindFrom(dst, sub, 0);
    }
  }
}
