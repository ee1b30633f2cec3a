/** Python's `str` operations that the version gate relies on:
    the ordering `a < b` and `s.split(sep)`. */
module PyText {

  /** Python's `a < b` on strings: code points compared left to right,
      and a proper prefix is smaller. */
  predicate Less(a: string, b: string)
    ensures |a| < |b| && a == b[..|a|] ==> Less(a, b)
    ensures 0 < |a| && 0 < |b| && a[0] < b[0] ==> Less(a, b)
    ensures Less(a, b) ==> |b| > 0
    ensures forall i :: 0 <= i < |a| && i < |b| && a[..i] == b[..i] && a[i] != b[i] ==> (Less(a, b) <==> a[i] < b[i])
    decreases |a|
  {
    if |b| == 0 then false
    else if |a| == 0 then true
    else if a[0] != b[0] then a[0] < b[0]
    else
      assert |a| < |b| && a == b[..|a|] ==> a[1..] == b[1..][..|a| - 1];
      assert forall i :: 0 < i <= |a| ==> a[1..][..i - 1] == a[..i][1..];
      assert forall i :: 0 < i <= |b| ==> b[1..][..i - 1] == b[..i][1..];
      Less(a[1..], b[1..])
  }

  lemma {:induction false} LessIrreflexive(a: string)
    ensures !Less(a, a)
  {
    if |a| > 0 {
      LessIrreflexive(a[1..]);
    }
  }

  lemma {:induction false} LessAsymmetric(a: string, b: string)
    ensures Less(a, b) ==> !Less(b, a)
  {
    if |a| > 0 && |b| > 0 && a[0] == b[0] {
      LessAsymmetric(a[1..], b[1..]);
    }
  }

  /** Any two strings are equal or ordered one way. */
  lemma {:induction false} LessTotal(a: string, b: string)
    ensures a == b || Less(a, b) || Less(b, a)
  {
    if |a| > 0 && |b| > 0 && a[0] == b[0] {
      LessTotal(a[1..], b[1..]);
      if a[1..] == b[1..] {
        assert a == [a[0]] + a[1..] && b == [b[0]] + b[1..];
      }
    }
  }

  lemma {:induction false} LessTransitive(a: string, b: string, c: string)
    requires Less(a, b) && Less(b, c)
    ensures Less(a, c)
  {
    if |a| > 0 && a[0] == b[0] && b[0] == c[0] {
      LessTransitive(a[1..], b[1..], c[1..]);
    }
  }

  /** The ordering is not numeric: "10" sorts before "4". */
  lemma TenBeforeFour()
    ensures Less("10", "4") && !Less("4", "10")
  {
  }

  /** `sep` occurs in `s` starting at index `i`. */
  predicate OccursAt(s: string, sep: string, i: int)
  {
    0 <= i && i + |sep| <= |s| && s[i..i + |sep|] == sep
  }

  /** The first index at or after `from` where `sep` occurs in `s`, or -1. */
  function FindFrom(s: string, sep: string, from: nat): (r: int)
    requires from <= |s|
    ensures r == -1 || (from <= r && OccursAt(s, sep, r))
    ensures forall j :: from <= j && (r == -1 || j < r) ==> !OccursAt(s, sep, j)
    decreases |s| - from
  {
    if from + |sep| > |s| then -1
    else if s[from..from + |sep|] == sep then from
    else FindFrom(s, sep, from + 1)
  }

  /** Python's `s.find(sep)`. */
  function Find(s: string, sep: string): (r: int)
    ensures r == -1 || OccursAt(s, sep, r)
    ensures forall j :: 0 <= j && (r == -1 || j < r) ==> !OccursAt(s, sep, j)
  {
    FindFrom(s, sep, 0)
  }

  predicate Contains(s: string, sep: string)
  {
    exists j | 0 <= j <= |s| :: OccursAt(s, sep, j)
  }

  /** Python's `s.split(sep)`: cut at every occurrence of `sep`, scanning left to right. */
  function Split(s: string, sep: string): (pieces: seq<string>)
    requires |sep| > 0
    ensures |pieces| >= 1
    decreases |s|
  {
    var i := Find(s, sep);
    if i < 0 then [s] else [s[..i]] + Split(s[i + |sep|..], sep)
  }

  /** Python's `sep.join(pieces)`. */
  function JoinWith(pieces: seq<string>, sep: string): string
  {
    if |pieces| == 0 then ""
    else if |pieces| == 1 then pieces[0]
    else pieces[0] + sep + JoinWith(pieces[1..], sep)
  }

  /** Splitting loses nothing: joining the pieces with `sep` gives `s` back. */
  lemma {:induction false} SplitJoin(s: string, sep: string)
    requires |sep| > 0
    ensures JoinWith(Split(s, sep), sep) == s
    decreases |s|
  {
    var i := Find(s, sep);
    if i >= 0 {
      var rest := s[i + |sep|..];
      var pieces := Split(rest, sep);
      SplitJoin(rest, sep);
      assert Split(s, sep) == [s[..i]] + pieces;
      assert JoinWith([s[..i]] + pieces, sep) == s[..i] + sep + JoinWith(pieces, sep) by {
        assert ([s[..i]] + pieces)[1..] == pieces;
      }
      assert s[i..i + |sep|] == sep;
      assert s == s[..i] + s[i..i + |sep|] + rest;
    }
  }

  /** No piece contains `sep`, so every occurrence was cut. */
  lemma {:induction false} SplitPiecesFree(s: string, sep: string)
    requires |sep| > 0
    ensures forall p :: p in Split(s, sep) ==> !Contains(p, sep)
    decreases |s|
  {
    var i := Find(s, sep);
    if i < 0 {
      NoOccurrenceNoContains(s, sep);
    } else {
      var head := s[..i];
      forall j | OccursAt(head, sep, j) ensures false {
        assert head[j..j + |sep|] == s[j..j + |sep|];
        assert OccursAt(s, sep, j);
      }
      SplitPiecesFree(s[i + |sep|..], sep);
    }
  }

  lemma NoOccurrenceNoContains(s: string, sep: string)
    requires Find(s, sep) == -1
    ensures !Contains(s, sep)
  {
  }

  /** A string without the separator's first character is a single piece. */
  lemma SplitWithoutSep(s: string, sep: string)
    requires |sep| > 0 && sep[0] !in s
    ensures Split(s, sep) == [s]
  {
    forall j | 0 <= j ensures !OccursAt(s, sep, j) {
      if j + |sep| <= |s| {
        assert s[j..j + |sep|][0] == s[j] && s[j] in s;
      }
    }
  }

  /** There is one piece exactly when `sep` does not occur, and the first
      piece is the text before its first occurrence. */
  lemma {:induction false} SplitHead(s: string, sep: string)
    requires |sep| > 0
    ensures Find(s, sep) == -1 <==> |Split(s, sep)| == 1
    ensures Find(s, sep) == -1 ==> Split(s, sep)[0] == s
    ensures Find(s, sep) >= 0 ==> Split(s, sep)[0] == s[..Find(s, sep)]
  {
  }

  /** A string `base + sep + rest` whose base holds no `sep` and does not end
      in a prefix of `sep` splits into `base` and the pieces of `rest`. */
  lemma {:induction false} SplitOfPrefixed(base: string, sep: string, rest: string)
    requires |sep| > 0
    requires !Contains(base + sep[..|sep| - 1], sep)
    ensures Split(base + sep + rest, sep) == [base] + Split(rest, sep)
  {
    var s := base + sep + rest;
    assert OccursAt(s, sep, |base|) by {
      assert s[|base|..|base| + |sep|] == sep;
    }
    forall j | 0 <= j < |base| ensures !OccursAt(s, sep, j) {
      if OccursAt(s, sep, j) {
        var t := base + sep[..|sep| - 1];
        assert t[j..j + |sep|] == s[j..j + |sep|];
        assert OccursAt(t, sep, j);
      }
    }
    var i := Find(s, sep);
    assert i == |base|;
    assert s[..i] == base;
    assert s[i + |sep|..] == rest;
  }
}
