/**
 * The Python string operations the program relies on, with Python's semantics:
 * `startswith`, `find`, `in`, `split(sep)`, `sep.join(parts)` and `strip(chars)`.
 */
module Text {
  import opened Wrappers

  /** Python's `s.startswith(p)`. */
  predicate StartsWith(s: string, p: string)
  {
    |p| <= |s| && s[..|p|] == p
  }

  /** `p` occurs in `s` starting at offset `i`. */
  ghost predicate OccursAt(s: string, p: string, i: int)
  {
    0 <= i && i + |p| <= |s| && s[i..i + |p|] == p
  }

  /** Every offset at which `p` occurs in `s`, overlapping occurrences included. */
  ghost function Occurrences(s: string, p: string): set<nat>
  {
    set i: nat | i <= |s| && OccursAt(s, p, i)
  }

  /** Python's `s.find(p)`: the first offset at which `p` occurs in `s`, if any. */
  function IndexOf(s: string, p: string): (r: Option<nat>)
    ensures r.Some? ==> OccursAt(s, p, r.value)
    decreases |s|
  {
    if |s| < |p| then None
    else if s[..|p|] == p then Some(0)
    else
      match IndexOf(s[1..], p)
      case None => None
      case Some(i) =>
        assert s[1..][i..i + |p|] == s[i + 1..i + 1 + |p|];
        Some(i + 1)
  }

  /** Python's `p in s`. */
  predicate Contains(s: string, p: string)
  {
    IndexOf(s, p).Some?
  }

  /** Python's `s.split(sep)`: the pieces between the non-overlapping occurrences of `sep`, found left to right. */
  function Split(s: string, sep: string): (parts: seq<string>)
    requires |sep| > 0
    ensures |parts| >= 1
    decreases |s|
  {
    match IndexOf(s, sep)
    case None => [s]
    case Some(i) => [s[..i]] + Split(s[i + |sep|..], sep)
  }

  /** Python's `sep.join(parts)`. */
  function Join(sep: string, parts: seq<string>): (r: string)
    ensures parts == [] ==> r == ""
    ensures |parts| == 1 ==> r == parts[0]
  {
    if |parts| == 0 then ""
    else if |parts| == 1 then parts[0]
    else parts[0] + sep + Join(sep, parts[1..])
  }

  /** Python's `s.lstrip(chars)`: drops the longest prefix made of characters of `chars`. */
  function LStrip(s: string, chars: set<char>): (r: string)
    ensures |r| <= |s| && r == s[|s| - |r|..]
    ensures forall k :: 0 <= k < |s| - |r| ==> s[k] in chars
    ensures r == [] || r[0] !in chars
  {
    if |s| > 0 && s[0] in chars then LStrip(s[1..], chars) else s
  }

  /** Python's `s.rstrip(chars)`: drops the longest suffix made of characters of `chars`. */
  function RStrip(s: string, chars: set<char>): (r: string)
    ensures |r| <= |s| && r == s[..|r|]
    ensures forall k :: |r| <= k < |s| ==> s[k] in chars
    ensures r == [] || r[|r| - 1] !in chars
  {
    if |s| > 0 && s[|s| - 1] in chars then RStrip(s[..|s| - 1], chars) else s
  }

  /** Python's `s.strip(chars)`: a character-set trim at both ends, not a prefix or suffix removal. */
  function Strip(s: string, chars: set<char>): (r: string)
  {
    RStrip(LStrip(s, chars), chars)
  }

  /** The left strip stops at the first character outside `chars`. */
  lemma LStripStopsAt(s: string, chars: set<char>, i: nat)
    requires i <= |s| && (forall k :: 0 <= k < i ==> s[k] in chars) && (i < |s| ==> s[i] !in chars)
    ensures LStrip(s, chars) == s[i..]
  {
  }

  /** The right strip stops after the last character outside `chars`. */
  lemma RStripStopsAt(s: string, chars: set<char>, j: nat)
    requires j <= |s| && (forall k :: j <= k < |s| ==> s[k] in chars) && (j > 0 ==> s[j - 1] !in chars)
    ensures RStrip(s, chars) == s[..j]
  {
  }

  /** Where `Strip(s, chars)` starts inside `s`. */
  function StripStart(s: string, chars: set<char>): nat
  {
    |s| - |LStrip(s, chars)|
  }

  /**
   * The result of a strip is the slice of `s` that starts at the first character
   * outside `chars`; everything removed, at either end, is in `chars`, and the result
   * neither starts nor ends with a character of `chars`.
   */
  lemma StripSlice(s: string, chars: set<char>)
    ensures var r, i := Strip(s, chars), StripStart(s, chars);
      && i + |r| <= |s|
      && r == s[i..i + |r|]
      && (forall k :: 0 <= k < i ==> s[k] in chars)
      && (forall k :: i + |r| <= k < |s| ==> s[k] in chars)
      && (r == [] || (r[0] !in chars && r[|r| - 1] !in chars))
  {
    var l := LStrip(s, chars);
    var r := RStrip(l, chars);
    var i := |s| - |l|;
    assert l == s[i..];
    forall k | i + |r| <= k < |s| ensures s[k] in chars {
      assert s[k] == l[k - i];
    }
  }

  /** `find` returns the FIRST occurrence, and reports none only when there is none. */
  lemma {:induction false} IndexOfFirst(s: string, p: string)
    ensures IndexOf(s, p).Some? ==> forall j :: 0 <= j < IndexOf(s, p).value ==> !OccursAt(s, p, j)
    ensures IndexOf(s, p).None? ==> forall j :: !OccursAt(s, p, j)
    decreases |s|
  {
    if |s| < |p| {
    } else if s[..|p|] == p {
    } else {
      IndexOfFirst(s[1..], p);
      forall j | 1 <= j && OccursAt(s, p, j) ensures OccursAt(s[1..], p, j - 1) {
        assert s[1..][j - 1..j - 1 + |p|] == s[j..j + |p|];
      }
    }
  }

  /** `p in s` holds exactly when `p` occurs somewhere in `s`. */
  lemma ContainsIffOccurs(s: string, p: string)
    ensures Contains(s, p) <==> Occurrences(s, p) != {}
  {
    IndexOfFirst(s, p);
    if Contains(s, p) {
      assert IndexOf(s, p).value in Occurrences(s, p);
    }
  }

  /** An occurrence cuts the string into what precedes it, the pattern, and what follows it. */
  lemma OccurrenceSplits(s: string, p: string, i: int)
    requires OccursAt(s, p, i)
    ensures s == s[..i] + p + s[i + |p|..]
  {
    assert s[i..] == s[i..i + |p|] + s[i + |p|..];
    assert s == s[..i] + s[i..];
  }

  /** Joining the pieces of a split with the same separator gives back the original string. */
  lemma {:induction false} JoinSplit(s: string, sep: string)
    requires |sep| > 0
    ensures Join(sep, Split(s, sep)) == s
    decreases |s|
  {
    var found := IndexOf(s, sep);
    if found.Some? {
      var i := found.value;
      var head, rest := s[..i], s[i + |sep|..];
      var tail := Split(rest, sep);
      assert Split(s, sep) == [head] + tail;
      assert Join(sep, [head] + tail) == head + sep + Join(sep, tail) by {
        assert ([head] + tail)[0] == head && ([head] + tail)[1..] == tail;
      }
      JoinSplit(rest, sep);
      OccurrenceSplits(s, sep, i);
    }
  }

  /** No piece of a split contains the separator. */
  lemma {:induction false} SplitPiecesFree(s: string, sep: string)
    requires |sep| > 0
    ensures forall k :: 0 <= k < |Split(s, sep)| ==> Occurrences(Split(s, sep)[k], sep) == {}
    decreases |s|
  {
    IndexOfFirst(s, sep);
    match IndexOf(s, sep)
    case None =>
      assert Occurrences(s, sep) == {};
    case Some(i) =>
      var rest := s[i + |sep|..];
      var parts, tail := Split(s, sep), Split(rest, sep);
      assert parts == [s[..i]] + tail;
      SplitPiecesFree(rest, sep);
      PrefixFree(s, sep, i);
      forall k | 0 <= k < |parts| ensures Occurrences(parts[k], sep) == {} {
        if k > 0 {
          assert parts[k] == tail[k - 1];
        }
      }
  }

  /** A prefix that ends before the first occurrence holds no occurrence. */
  lemma PrefixFree(s: string, p: string, i: nat)
    requires |p| > 0 && i <= |s|
    requires forall j :: 0 <= j < i ==> !OccursAt(s, p, j)
    ensures Occurrences(s[..i], p) == {}
  {
    forall j | j in Occurrences(s[..i], p) ensures false {
      assert s[..i][j..j + |p|] == s[j..j + |p|];
      assert OccursAt(s, p, j);
    }
  }

  /** A string splits into a single piece exactly when the separator does not occur in it. */
  lemma SplitSingleIffAbsent(s: string, sep: string)
    requires |sep| > 0
    ensures |Split(s, sep)| == 1 <==> Occurrences(s, sep) == {}
  {
    IndexOfFirst(s, sep);
    match IndexOf(s, sep)
    case None =>
    case Some(i) =>
      assert i in Occurrences(s, sep);
  }

  /** An occurrence inside a suffix of `s` is an occurrence in `s`, shifted by where the suffix starts. */
  lemma OccursInSuffix(s: string, p: string, i: nat, j: int)
    requires i <= |s| && OccursAt(s[i..], p, j)
    ensures OccursAt(s, p, i + j)
  {
    assert s[i..][j..j + |p|] == s[i + j..i + j + |p|];
  }

  /** A set with one element holds nothing but that element. */
  lemma OnlyElement(xs: set<nat>, x: nat, y: nat)
    requires |xs| == 1 && x in xs && y in xs
    ensures x == y
  {
    var others := xs - {x};
    assert xs == others + {x} && x !in others;
    assert |others| == 0;
    assert y !in others;
  }

  /**
   * A separator occurring exactly once splits the string in two, around that occurrence.
   * (The converse fails: two overlapping occurrences also give two pieces.)
   */
  lemma SplitAtSingleOccurrence(s: string, sep: string)
    requires |sep| > 0
    requires |Occurrences(s, sep)| == 1
    ensures |Split(s, sep)| == 2
    ensures Split(s, sep)[0] + sep + Split(s, sep)[1] == s
  {
    var i := FirstOfSingle(s, sep);
    var rest := s[i + |sep|..];
    OnlyOccurrence(s, sep, i);
    NothingAfterSingle(s, sep, i);
    assert Split(s, sep) == [s[..i], rest];
    OccurrenceSplits(s, sep, i);
  }

  /** Where `IndexOf` finds a separator that occurs exactly once. */
  lemma FirstOfSingle(s: string, sep: string) returns (i: nat)
    requires |Occurrences(s, sep)| == 1
    ensures IndexOf(s, sep) == Some(i) && i in Occurrences(s, sep)
  {
    IndexOfFirst(s, sep);
    var j :| j in Occurrences(s, sep);
    match IndexOf(s, sep)
    case None =>
      assert false;
    case Some(k) =>
      i := k;
  }

  /** When a separator occurs exactly once, every occurrence is that one. */
  lemma OnlyOccurrence(s: string, sep: string, i: nat)
    requires |Occurrences(s, sep)| == 1 && i in Occurrences(s, sep)
    ensures forall k :: OccursAt(s, sep, k) ==> k == i
  {
    forall k | OccursAt(s, sep, k)
      ensures k == i
    {
      assert k in Occurrences(s, sep);
      OnlyElement(Occurrences(s, sep), i, k);
    }
  }

  /** After the only occurrence of a separator, the rest of the string holds no further one. */
  lemma NothingAfterSingle(s: string, sep: string, i: nat)
    requires |sep| > 0 && OccursAt(s, sep, i)
    requires forall k :: OccursAt(s, sep, k) ==> k == i
    ensures IndexOf(s[i + |sep|..], sep) == None
  {
    var rest := s[i + |sep|..];
    if IndexOf(rest, sep).Some? {
      OccursInSuffix(s, sep, i + |sep|, IndexOf(rest, sep).value);
      assert false;
    }
  }

  /** A string made of the separator and a remainder too short to hold it splits into an empty piece and the remainder. */
  lemma SplitLeadingSeparator(sep: string, rest: string)
    requires |sep| > 0 && |rest| < |sep|
    ensures Split(sep + rest, sep) == ["", rest]
  {
    var s := sep + rest;
    assert s[..|sep|] == sep && s[|sep|..] == rest;
    assert IndexOf(s, sep) == Some(0);
    assert IndexOf(rest, sep) == None;
  }

  /** Joining `xs` followed by one more piece puts the separator before that piece. */
  lemma {:induction false} JoinSnoc(sep: string, xs: seq<string>, x: string)
    requires xs != []
    ensures Join(sep, xs + [x]) == Join(sep, xs) + sep + x
  {
    if |xs| == 1 {
      assert xs + [x] == [xs[0], x];
    } else {
      JoinSnoc(sep, xs[1..], x);
      assert (xs + [x])[1..] == xs[1..] + [x];
    }
  }

  /**
   * `sep.join` of a first part and more: the first part, the separator, then the
   * join of the rest, each found at its offset.
   */
  lemma JoinFirst(sep: string, x: string, rest: seq<string>)
    requires rest != []
    ensures var r, k := Join(sep, [x] + rest), |x| + |sep|;
      && r == x + sep + Join(sep, rest)
      && |r| == k + |Join(sep, rest)|
      && r[..|x|] == x && r[|x|..k] == sep && r[k..] == Join(sep, rest)
  {
    assert ([x] + rest)[1..] == rest;
  }

  /** A slice of a suffix is a slice of the whole, shifted by where the suffix starts. */
  lemma SliceOfSuffix(r: string, k: nat, r1: string, i: nat, j: nat)
    requires k <= |r| && r[k..] == r1 && i <= j <= |r1|
    ensures r[k + i..k + j] == r1[i..j]
  {
    assert forall n :: 0 <= n < j - i ==> r[k + i..k + j][n] == r1[i..j][n];
  }

  /** `sep.join` of three parts: whatever the parts hold, each one and each separator sits at its offset. */
  lemma JoinThreeOffsets(sep: string, a: string, b: string, c: string)
    ensures var r, o1 := Join(sep, [a, b, c]), |a| + |sep|;
      var o2 := o1 + |b| + |sep|;
      && |r| == o2 + |c|
      && r[..|a|] == a && r[|a|..o1] == sep
      && r[o1..o1 + |b|] == b && r[o1 + |b|..o2] == sep
      && r[o2..] == c
  {
    var r, o1 := Join(sep, [a, b, c]), |a| + |sep|;
    assert [a, b, c] == [a] + [b, c] && [b, c] == [b] + [c];
    JoinFirst(sep, a, [b, c]);
    JoinFirst(sep, b, [c]);
    var r1 := Join(sep, [b, c]);
    SliceOfSuffix(r, o1, r1, 0, |b|);
    SliceOfSuffix(r, o1, r1, |b|, |b| + |sep|);
    SliceOfSuffix(r, o1, r1, |b| + |sep|, |r1|);
  }

  /** `sep.join` of four parts: whatever the parts hold, each one and each separator sits at its offset. */
  lemma JoinFourOffsets(sep: string, a: string, b: string, c: string, d: string)
    ensures var r, o1 := Join(sep, [a, b, c, d]), |a| + |sep|;
      var o2 := o1 + |b| + |sep|;
      var o3 := o2 + |c| + |sep|;
      && |r| == o3 + |d|
      && r[..|a|] == a && r[|a|..o1] == sep
      && r[o1..o1 + |b|] == b && r[o1 + |b|..o2] == sep
      && r[o2..o2 + |c|] == c && r[o2 + |c|..o3] == sep
      && r[o3..] == d
  {
    var r, o1 := Join(sep, [a, b, c, d]), |a| + |sep|;
    assert [a, b, c, d] == [a] + [b, c, d];
    JoinFirst(sep, a, [b, c, d]);
    JoinThreeOffsets(sep, b, c, d);
    var r1 := Join(sep, [b, c, d]);
    var p1, p2 := |b| + |sep|, |b| + |sep| + |c| + |sep|;
    assert r1[..|b|] == r1[0..|b|] && r1[p2..] == r1[p2..|r1|];
    SliceOfSuffix(r, o1, r1, 0, |b|);
    SliceOfSuffix(r, o1, r1, |b|, p1);
    SliceOfSuffix(r, o1, r1, p1, p1 + |c|);
    SliceOfSuffix(r, o1, r1, p1 + |c|, p2);
    SliceOfSuffix(r, o1, r1, p2, |r1|);
    assert r[o1 + p2..] == r[o1 + p2..o1 + |r1|];
  }

  /** `sep.join` of four parts is the four parts one separator apart. */
  lemma JoinFour(sep: string, a: string, b: string, c: string, d: string)
    ensures Join(sep, [a, b, c, d]) == a + sep + b + sep + c + sep + d
  {
    assert [a, b, c, d] == [a] + [b, c, d];
    JoinFirst(sep, a, [b, c, d]);
    JoinThree(sep, b, c, d);
    var t := c + sep + d;
    assert a + sep + (b + sep + t) == a + sep + b + sep + t;
  }

  /** `sep.join` of three parts is the three parts one separator apart. */
  lemma JoinThree(sep: string, a: string, b: string, c: string)
    ensures Join(sep, [a, b, c]) == a + sep + b + sep + c
  {
    assert [a, b, c][1..] == [b, c] && [b, c][1..] == [c];
    assert Join(sep, [a, b, c]) == a + sep + (b + sep + c);
  }

  /** The position `IndexOf` reports is the leftmost occurrence. */
  lemma IndexOfLeftmost(s: string, p: string, i: nat)
    requires OccursAt(s, p, i)
    requires forall j :: 0 <= j < i ==> !OccursAt(s, p, j)
    ensures IndexOf(s, p) == Some(i)
  {
    IndexOfFirst(s, p);
  }

  /**
   * When no piece holds the separator's first character, splitting undoes joining:
   * the pieces come back in order.
   */
  lemma {:induction false} SplitJoin(parts: seq<string>, sep: string)
    requires |sep| > 0 && parts != []
    requires forall k :: 0 <= k < |parts| ==> sep[0] !in parts[k]
    ensures Split(Join(sep, parts), sep) == parts
    decreases |parts|
  {
    var s := Join(sep, parts);
    var head := parts[0];
    forall j | 0 <= j < |head| ensures !OccursAt(s, sep, j) {
      assert s[j] == head[j];
    }
    if |parts| == 1 {
      IndexOfFirst(s, sep);
    } else {
      var rest := parts[1..];
      assert s == head + sep + Join(sep, rest);
      assert OccursAt(s, sep, |head|) by {
        assert s[|head|..|head| + |sep|] == sep;
      }
      IndexOfLeftmost(s, sep, |head|);
      assert s[..|head|] == head && s[|head| + |sep|..] == Join(sep, rest);
      SplitJoin(rest, sep);
    }
  }

  /** Two occurrences that do not overlap split the string into three pieces or more. */
  lemma SplitApart(s: string, sep: string, i: nat, j: nat)
    requires |sep| > 0 && OccursAt(s, sep, i) && OccursAt(s, sep, j) && i + |sep| <= j
    ensures |Split(s, sep)| >= 3
  {
    IndexOfFirst(s, sep);
    var first := IndexOf(s, sep).value;
    assert first <= i;
    var rest := s[first + |sep|..];
    assert OccursAt(rest, sep, j - first - |sep|) by {
      assert rest[j - first - |sep|..j - first] == s[j..j + |sep|];
    }
    IndexOfFirst(rest, sep);
    assert IndexOf(rest, sep).Some?;
  }
}
