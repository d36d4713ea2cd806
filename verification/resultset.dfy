/**
 * The result set that `select` wraps around the engine's matches: the ` - ` difference
 * split, the exclusion and skip filter of `forEach`, and `nodes`, `empty` and `first`
 * derived from the filtered stream, plus the two canonical boolean results.
 */
module ResultSets {
  import opened Basics
  import opened Json
  import SkipList

  /**
   * The selector engine, with the data root and options fixed: the values a selector
   * fragment matches, in the order the engine visits them.
   */
  type Matcher = string -> seq<Value>

  /** The difference separator. */
  const Separator: string := " - "

  /** `sep` occurs in `s` at position `i`. */
  predicate OccursAt(s: string, sep: string, i: nat) {
    i + |sep| <= |s| && s[i..i + |sep|] == sep
  }

  /** Position of the first occurrence of `sep` in `s` at or after `from`, or None. */
  function FindFrom(s: string, sep: string, from: nat): (r: Option<nat>)
    requires from <= |s|
    ensures r.Some? ==> from <= r.value && OccursAt(s, sep, r.value)
    ensures forall i | from <= i && (r.None? || i < r.value) :: !OccursAt(s, sep, i)
    decreases |s| - from
  {
    if OccursAt(s, sep, from) then Some(from)
    else if from == |s| then None
    else FindFrom(s, sep, from + 1)
  }

  /** `s.split(sep)`: the pieces between the non-overlapping occurrences of `sep`, left to right. */
  function Split(s: string, sep: string): (r: seq<string>)
    requires |sep| > 0
    ensures |r| >= 1
    decreases |s|
  {
    match FindFrom(s, sep, 0)
    case None => [s]
    case Some(i) => [s[..i]] + Split(s[i + |sep|..], sep)
  }

  /** `parts.join(sep)`, the inverse of `Split`. */
  function Join(parts: seq<string>, sep: string): string
    requires |parts| >= 1
  {
    if |parts| == 1 then parts[0] else parts[0] + sep + Join(parts[1..], sep)
  }

  /** Splitting loses nothing: joining the pieces with the separator gives back the text. */
  lemma {:induction false} SplitJoin(s: string, sep: string)
    requires |sep| > 0
    ensures Join(Split(s, sep), sep) == s
    decreases |s|
  {
    match FindFrom(s, sep, 0)
    case None =>
    case Some(i) =>
      var rest := s[i + |sep|..];
      var parts := Split(s, sep);
      assert parts == [s[..i]] + Split(rest, sep);
      assert parts[1..] == Split(rest, sep);
      SplitJoin(rest, sep);
      assert Join(parts, sep) == s[..i] + sep + rest;
      assert s[i..i + |sep|] == sep;
      assert s == s[..i] + s[i..i + |sep|] + rest;
  }

  /** No piece of a split contains the separator. */
  lemma {:induction false} SplitPiecesFree(s: string, sep: string)
    requires |sep| > 0
    ensures forall p, j: nat | p in Split(s, sep) :: !OccursAt(p, sep, j)
    decreases |s|
  {
    match FindFrom(s, sep, 0)
    case None =>
      forall j: nat ensures !OccursAt(s, sep, j) {
        if j <= |s| { assert !OccursAt(s, sep, j); }
      }
    case Some(i) =>
      var rest := s[i + |sep|..];
      SplitPiecesFree(rest, sep);
      forall j: nat | OccursAt(s[..i], sep, j) ensures false {
        assert s[..i][j..j + |sep|] == s[j..j + |sep|];
        assert OccursAt(s, sep, j);
      }
  }

  /**
   * The first piece of a split runs up to the leftmost occurrence of the separator, and the
   * other pieces are the split of what follows that occurrence; without an occurrence the
   * text is one piece.
   */
  lemma SplitLeftmost(s: string, sep: string)
    requires |sep| > 0
    ensures var p := Split(s, sep);
      && |p[0]| <= |s| && p[0] == s[..|p[0]|]
      && (forall i | 0 <= i < |p[0]| :: !OccursAt(s, sep, i))
      && (|p| == 1 ==> p[0] == s && forall i | 0 <= i <= |s| :: !OccursAt(s, sep, i))
      && (|p| > 1 ==> OccursAt(s, sep, |p[0]|) && p[1..] == Split(s[|p[0]| + |sep|..], sep))
  {
    match FindFrom(s, sep, 0)
    case None =>
    case Some(i) =>
      var p := Split(s, sep);
      assert p == [s[..i]] + Split(s[i + |sep|..], sep);
      assert p[1..] == Split(s[i + |sep|..], sep);
  }

  /** What `select` returns: the engine's matches with their filter, or one of the two canonical sets. */
  datatype ResultSet =
    | Matches(base: seq<Value>, exclusions: seq<seq<Value>>, skip: seq<Value>)
    | EmptySet
    | NotEmptySet

  /**
   * `select(obj, s, options)`: the selector is padded with a space on each side and split
   * on ` - `; the first piece is matched as the base, every further piece as an exclusion.
   * The skip list is `options.skip` when given, the default list otherwise.
   */
  function Select(matcher: Matcher, s: string, skip: Option<seq<Value>>): (r: ResultSet)
    ensures r.Matches?
  {
    var segs := Split(" " + s + " ", Separator);
    Matches(
      matcher(segs[0]),
      seq(|segs| - 1, i requires 0 <= i < |segs| - 1 => matcher(segs[i + 1])),
      if skip.Some? then skip.value else SkipList.Default)
  }

  /** `e` is deep-equal to some value matched by some exclusion piece. */
  predicate Excluded(e: Value, exclusions: seq<seq<Value>>) {
    exists j, k | 0 <= j < |exclusions| && 0 <= k < |exclusions[j]| :: exclusions[j][k] == e
  }

  /** The test `forEach` applies to a base value before handing it on. */
  predicate Passes(e: Value, exclusions: seq<seq<Value>>, skip: seq<Value>) {
    !Excluded(e, exclusions) && e !in skip
  }

  /** The base values that pass, in their original order. */
  function Passing(base: seq<Value>, exclusions: seq<seq<Value>>, skip: seq<Value>): (r: seq<Value>)
  {
    if base == [] then []
    else (if Passes(base[0], exclusions, skip) then [base[0]] else []) + Passing(base[1..], exclusions, skip)
  }

  /** The values `forEach` hands to its callback. */
  function Stream(rs: ResultSet): seq<Value> {
    match rs
    case Matches(base, exclusions, skip) => Passing(base, exclusions, skip)
    case EmptySet => []
    case NotEmptySet => [Bool(true)]
  }

  /** `nodes(first)`: the whole stream, or with `first` only its first value. */
  function NodesOf(rs: ResultSet, first: bool): seq<Value> {
    match rs
    case Matches(_, _, _) =>
      var all := Stream(rs);
      if first && |all| > 0 then [all[0]] else all
    case EmptySet => []
    case NotEmptySet => [Bool(true)]
  }

  /** `empty()` */
  function IsEmpty(rs: ResultSet): bool {
    match rs
    case Matches(_, _, _) => |NodesOf(rs, true)| == 0
    case EmptySet => true
    case NotEmptySet => false
  }

  /** `first()`: the first node, or `undefined`. */
  function First(rs: ResultSet): Value {
    match rs
    case Matches(_, _, _) =>
      var nodes := NodesOf(rs, true);
      if |nodes| > 0 then nodes[0] else Undefined
    case EmptySet => Undefined
    case NotEmptySet => Bool(true)
  }

  /** Filtering distributes over concatenation of the base values. */
  lemma {:induction false} PassingAppend(a: seq<Value>, b: seq<Value>, exclusions: seq<seq<Value>>, skip: seq<Value>)
    ensures Passing(a + b, exclusions, skip) == Passing(a, exclusions, skip) + Passing(b, exclusions, skip)
    decreases |a|
  {
    if a == [] {
      assert a + b == b;
    } else {
      assert (a + b)[1..] == a[1..] + b;
      PassingAppend(a[1..], b, exclusions, skip);
    }
  }

  /** A value is handed on exactly when it is a base value that no exclusion piece matches and the skip list lacks. */
  lemma {:induction false} PassingMembers(base: seq<Value>, exclusions: seq<seq<Value>>, skip: seq<Value>, e: Value)
    ensures e in Passing(base, exclusions, skip) <==> e in base && !Excluded(e, exclusions) && e !in skip
    decreases |base|
  {
    if base != [] {
      assert base == [base[0]] + base[1..];
      PassingMembers(base[1..], exclusions, skip, e);
    }
  }

  /** `nodes(true)` is at most one value, the first of the full stream; `empty()` and `first()` agree with it. */
  lemma FirstNode(rs: ResultSet)
    ensures |NodesOf(rs, true)| <= 1
    ensures NodesOf(rs, true) == NodesOf(rs, false)[..if NodesOf(rs, false) == [] then 0 else 1]
    ensures NodesOf(rs, false) == Stream(rs)
    ensures IsEmpty(rs) <==> NodesOf(rs, true) == []
    ensures IsEmpty(rs) <==> Stream(rs) == []
    ensures First(rs) == if Stream(rs) == [] then Undefined else Stream(rs)[0]
  {
  }

  /** The exclusion loop of `forEach`: pieces are tried from the last back to the first until one matches `e`. */
  method ExcludedBy(e: Value, exclusions: seq<seq<Value>>) returns (equal: bool)
    ensures equal <==> Excluded(e, exclusions)
  {
    var i := |exclusions|;
    equal := false;
    while i > 0 && !equal
      invariant 0 <= i <= |exclusions|
      invariant equal <==> exists j, k | i <= j < |exclusions| && 0 <= k < |exclusions[j]| :: exclusions[j][k] == e
    {
      i := i - 1;
      var found := exclusions[i];
      ghost var before := equal;
      for k := 0 to |found|
        invariant equal <==> before || exists k' | 0 <= k' < k :: found[k'] == e
      {
        equal := equal || e == found[k];
      }
    }
  }

  /** `nodes(first)`: collect what `forEach` hands on; with `first`, block the engine after one value. */
  method Nodes(rs: ResultSet, first: bool) returns (nodes: seq<Value>)
    ensures nodes == NodesOf(rs, first)
  {
    match rs {
      case EmptySet => nodes := [];
      case NotEmptySet => nodes := [Bool(true)];
      case Matches(base, exclusions, skip) =>
        nodes := [];
        var i := 0;
        var blocked := false;
        while i < |base| && !blocked
          invariant 0 <= i <= |base|
          invariant nodes == Passing(base[..i], exclusions, skip)
          invariant blocked ==> first && |nodes| == 1
          invariant first && !blocked ==> nodes == []
        {
          var e := base[i];
          var equal := ExcludedBy(e, exclusions);
          assert base[..i + 1] == base[..i] + [e];
          PassingAppend(base[..i], [e], exclusions, skip);
          if !equal && e !in skip {
            nodes := nodes + [e];
            if first {
              blocked := true;
            }
          }
          i := i + 1;
        }
        assert base == base[..i] + base[i..];
        PassingAppend(base[..i], base[i..], exclusions, skip);
        nodes := if first && |nodes| > 0 then [nodes[0]] else nodes;
    }
  }

  /** A base value deep-equal to some value of an exclusion piece never reaches the stream. */
  lemma ExcludedNeverPasses(rs: ResultSet, e: Value)
    requires rs.Matches? && Excluded(e, rs.exclusions)
    ensures e !in Stream(rs)
  {
    PassingMembers(rs.base, rs.exclusions, rs.skip, e);
  }

  /**
   * A value reaches the stream of `select(s)` exactly when the first ` - ` piece of the padded
   * selector matches it, no later piece matches it, and the skip list in force (the given one,
   * or the default one) lacks it.
   */
  lemma SelectStream(m: Matcher, s: string, skip: Option<seq<Value>>, e: Value)
    ensures var segs := Split(" " + s + " ", Separator);
      e in Stream(Select(m, s, skip))
      <==> && e in m(segs[0])
           && (forall j | 1 <= j < |segs| :: e !in m(segs[j]))
           && e !in (if skip.Some? then skip.value else SkipList.Default)
  {
    var segs := Split(" " + s + " ", Separator);
    var rs := Select(m, s, skip);
    PassingMembers(rs.base, rs.exclusions, rs.skip, e);
    if Excluded(e, rs.exclusions) {
      var j, k :| 0 <= j < |rs.exclusions| && 0 <= k < |rs.exclusions[j]| && rs.exclusions[j][k] == e;
      assert rs.exclusions[j] == m(segs[j + 1]);
      assert e in m(segs[j + 1]);
    }
    if j :| 1 <= j < |segs| && e in m(segs[j]) {
      var k :| 0 <= k < |m(segs[j])| && m(segs[j])[k] == e;
      assert rs.exclusions[j - 1] == m(segs[j]);
      assert rs.exclusions[j - 1][k] == e;
    }
  }

  /** ` .a - .b ` splits into the base piece ` .a` and the exclusion piece `.b `. */
  lemma SplitAB()
    ensures Split(" " + ".a - .b" + " ", Separator) == [" .a", ".b "]
  {
    var s := " " + ".a - .b" + " ";
    assert |s| == 9 && s[0] == ' ' && s[1] == '.' && s[2] == 'a' && s[3] == ' ' && s[4] == '-' && s[5] == ' ';
    assert s[6] == '.' && s[7] == 'b' && s[8] == ' ';
    assert !OccursAt(s, Separator, 0) by { assert s[0..3][1] == s[1]; }
    assert !OccursAt(s, Separator, 1) by { assert s[1..4][0] == s[1]; }
    assert !OccursAt(s, Separator, 2) by { assert s[2..5][0] == s[2]; }
    assert OccursAt(s, Separator, 3) by { assert s[3..6] == [s[3], s[4], s[5]]; }
    assert FindFrom(s, Separator, 0) == Some(3);
    var rest := s[6..];
    assert rest == [s[6], s[7], s[8]];
    assert !OccursAt(rest, Separator, 0) by { assert rest[0..3][0] == rest[0]; }
    assert FindFrom(rest, Separator, 0) == None;
    assert s[..3] == [s[0], s[1], s[2]];
    assert s[..3] == " .a" && rest == ".b ";
  }

  /** A one-value base is handed on exactly when that value passes. */
  lemma PassingOne(e: Value, exclusions: seq<seq<Value>>, skip: seq<Value>)
    ensures Passing([e], exclusions, skip) == if Passes(e, exclusions, skip) then [e] else []
  {
    assert [e][1..] == [];
  }

  /** `.a - .b`: the base ` .a` loses the values that `.b ` also matches. */
  lemma DifferenceExample(m: Matcher)
    requires m(" .a") == [Num(1)]
    ensures m(".b ") == [Num(1)] ==> IsEmpty(Select(m, ".a - .b", None))
    ensures m(".b ") == [Num(2)] ==> NodesOf(Select(m, ".a - .b", None), false) == [Num(1)]
  {
    SplitAB();
    var rs := Select(m, ".a - .b", None);
    assert rs == Matches([Num(1)], [m(".b ")], SkipList.Default);
    PassingOne(Num(1), [m(".b ")], SkipList.Default);
    if m(".b ") == [Num(1)] {
      assert rs.exclusions[0][0] == Num(1);
      assert !Passes(Num(1), rs.exclusions, rs.skip);
    } else if m(".b ") == [Num(2)] {
      assert !Excluded(Num(1), rs.exclusions);
      assert Passes(Num(1), rs.exclusions, rs.skip);
    }
  }

  /** ` .foo ` holds no separator, so it is a single base piece. */
  lemma SplitFoo()
    ensures Split(" " + ".foo" + " ", Separator) == [" .foo "]
  {
    var s := " " + ".foo" + " ";
    assert |s| == 6 && s[0] == ' ' && s[1] == '.' && s[2] == 'f' && s[3] == 'o' && s[4] == 'o' && s[5] == ' ';
    assert !OccursAt(s, Separator, 0) by { assert s[0..3][1] == s[1]; }
    assert !OccursAt(s, Separator, 1) by { assert s[1..4][1] == s[2]; }
    assert !OccursAt(s, Separator, 2) by { assert s[2..5][1] == s[3]; }
    assert !OccursAt(s, Separator, 3) by { assert s[3..6][1] == s[4]; }
    assert FindFrom(s, Separator, 0) == None;
    assert s == " .foo ";
  }

  /** With a skip list that lacks `false`, both `false` values are handed on. */
  lemma KeepFalse(m: Matcher, kept: seq<Value>)
    requires m(" .foo ") == [Bool(false), Bool(false)]
    requires Bool(false) !in kept
    ensures NodesOf(Select(m, ".foo", Some(kept)), false) == [Bool(false), Bool(false)]
  {
    SplitFoo();
    PassingAppend([Bool(false)], [Bool(false)], [], kept);
    PassingOne(Bool(false), [], kept);
    assert Passes(Bool(false), [], kept);
    assert Select(m, ".foo", Some(kept)) == Matches([Bool(false), Bool(false)], [], kept);
  }

  /** `false` is skipped by the default skip list. */
  lemma SkipFalseByDefault(m: Matcher)
    requires m(" .foo ") == [Bool(false), Bool(false)]
    ensures IsEmpty(Select(m, ".foo", None))
  {
    SplitFoo();
    PassingAppend([Bool(false)], [Bool(false)], [], SkipList.Default);
    PassingOne(Bool(false), [], SkipList.Default);
    assert Select(m, ".foo", None) == Matches([Bool(false), Bool(false)], [], SkipList.Default);
  }

  /** `false` is handed on once it is dropped from the default skip list with `not(false)`. */
  lemma KeepFalseAfterNot(m: Matcher)
    requires m(" .foo ") == [Bool(false), Bool(false)]
    ensures NodesOf(Select(m, ".foo", Some(SkipList.Not(SkipList.Default, Bool(false)))), false) == [Bool(false), Bool(false)]
  {
    var kept := SkipList.Not(SkipList.Default, Bool(false));
    KeepFalse(m, kept);
  }
}
