/**
 The emission order of generated schemas (scripts/wave8-strict-schemas.ts, the worklist in
 `emitGeneratedFile`): passes over the interfaces, each emitting those whose counted
 dependencies are already out, until a pass makes no progress.
 */
module SchemaOrder {
  import opened Sums
  import opened Wrappers

  /** An interface: its name, what it is an array of, and the type texts of its properties. */
  datatype Interface = Interface(name: string, arrayOf: Option<string>, properties: seq<string>)

  predicate IsWordChar(c: char) {
    'a' <= c <= 'z' || 'A' <= c <= 'Z' || '0' <= c <= '9' || c == '_'
  }

  /** The expression of line 187: one or more word characters. */
  predicate IsWord(s: string) {
    s != "" && forall i :: 0 <= i < |s| ==> IsWordChar(s[i])
  }

  function Names(all: seq<Interface>): set<string> {
    set i | 0 <= i < |all| :: all[i].name
  }

  /** The counted dependencies: what it is an array of, and bare type references, if known. */
  function Deps(iface: Interface, names: set<string>): set<string> {
    var element := iface.arrayOf.Some? && iface.arrayOf.value != "" && iface.arrayOf.value in names;
    (if element then {iface.arrayOf.value} else {})
    + set p | p in iface.properties && IsWord(p) && p in names
  }

  predicate Ready(iface: Interface, names: set<string>, emitted: set<string>) {
    forall d :: d in Deps(iface, names) ==> d in emitted || d == iface.name
  }

  predicate DistinctNames(all: seq<Interface>) {
    forall i, j :: 0 <= i < j < |all| ==> all[i].name != all[j].name
  }

  /** Every counted dependency of an interface, itself aside, stands somewhere before it. */
  ghost predicate Topological(ordered: seq<Interface>, names: set<string>) {
    forall i, d :: 0 <= i < |ordered| && d in Deps(ordered[i], names) && d != ordered[i].name ==>
      d in Names(ordered[..i])
  }

  /** What the worklist keeps: distinct interfaces of the input, in dependency order. */
  ghost predicate Partial(all: seq<Interface>, ordered: seq<Interface>) {
    && (forall i :: 0 <= i < |ordered| ==> ordered[i] in all)
    && DistinctNames(ordered)
    && Topological(ordered, Names(all))
  }

  // ---------------------------------------------------------------------------
  // The worklist
  // ---------------------------------------------------------------------------

  /** One pass over the remaining input. */
  function Pass(names: set<string>, rest: seq<Interface>, ordered: seq<Interface>): seq<Interface> {
    if rest == [] then ordered
    else if rest[0].name in Names(ordered) || !Ready(rest[0], names, Names(ordered)) then
      Pass(names, rest[1..], ordered)
    else Pass(names, rest[1..], ordered + [rest[0]])
  }

  lemma NamesAppend(ordered: seq<Interface>, iface: Interface)
    ensures Names(ordered + [iface]) == Names(ordered) + {iface.name}
  {
    var longer := ordered + [iface];
    assert longer[|ordered|] == iface;
    forall n | n in Names(ordered) ensures n in Names(longer) {
      var i :| 0 <= i < |ordered| && ordered[i].name == n;
      assert longer[i] == ordered[i];
    }
  }

  lemma AppendKeepsPartial(all: seq<Interface>, ordered: seq<Interface>, iface: Interface)
    requires Partial(all, ordered) && iface in all
    requires iface.name !in Names(ordered) && Ready(iface, Names(all), Names(ordered))
    ensures Partial(all, ordered + [iface])
  {
    var longer := ordered + [iface];
    forall i, d | 0 <= i < |longer| && d in Deps(longer[i], Names(all)) && d != longer[i].name
      ensures d in Names(longer[..i])
    {
      assert longer[..i] == ordered[..i];
      if i == |ordered| {
        assert ordered[..i] == ordered;
      }
    }
    forall i, j | 0 <= i < j < |longer| ensures longer[i].name != longer[j].name {
      assert ordered[i].name in Names(ordered);
    }
  }

  /** A pass only appends, keeps what `Partial` says, and stalls only when nothing was ready. */
  lemma {:induction false} PassKeeps(all: seq<Interface>, rest: seq<Interface>, ordered: seq<Interface>)
    requires Partial(all, ordered) && forall i :: 0 <= i < |rest| ==> rest[i] in all
    ensures Partial(all, Pass(Names(all), rest, ordered))
    ensures ordered <= Pass(Names(all), rest, ordered)
    ensures Pass(Names(all), rest, ordered) == ordered ==>
              forall i :: 0 <= i < |rest| ==>
                rest[i].name in Names(ordered) || !Ready(rest[i], Names(all), Names(ordered))
  {
    if rest != [] {
      assert forall i :: 0 <= i < |rest[1..]| ==> rest[1..][i] == rest[i + 1];
      if rest[0].name in Names(ordered) || !Ready(rest[0], Names(all), Names(ordered)) {
        PassKeeps(all, rest[1..], ordered);
        assert forall i :: 1 <= i < |rest| ==> rest[i] == rest[1..][i - 1];
      } else {
        assert rest[0] in all;
        AppendKeepsPartial(all, ordered, rest[0]);
        PassKeeps(all, rest[1..], ordered + [rest[0]]);
      }
    }
  }

  lemma {:induction false} NamesBound(all: seq<Interface>)
    ensures |Names(all)| <= |all|
  {
    if all != [] {
      var front := all[..|all| - 1];
      NamesBound(front);
      NamesAppend(front, all[|all| - 1]);
      assert front + [all[|all| - 1]] == all;
    }
  }

  lemma {:induction false} DistinctCount(ordered: seq<Interface>)
    requires DistinctNames(ordered)
    ensures |Names(ordered)| == |ordered|
  {
    if ordered != [] {
      var front := ordered[..|ordered| - 1];
      DistinctCount(front);
      NamesAppend(front, ordered[|ordered| - 1]);
      assert front + [ordered[|ordered| - 1]] == ordered;
    }
  }

  lemma PartialBound(all: seq<Interface>, ordered: seq<Interface>)
    requires Partial(all, ordered)
    ensures Names(ordered) <= Names(all) && |ordered| == |Names(ordered)| <= |Names(all)| <= |all|
  {
    DistinctCount(ordered);
    NamesBound(all);
    forall n | n in Names(ordered) ensures n in Names(all) {
      var i :| 0 <= i < |ordered| && ordered[i].name == n;
      assert ordered[i] in all;
    }
    SubsetSize(Names(ordered), Names(all));
  }

  /** Passes until everything is out or one makes no progress. */
  ghost function Passes(all: seq<Interface>, ordered: seq<Interface>): seq<Interface>
    requires Partial(all, ordered)
    decreases |all| - |ordered|
  {
    PartialBound(all, ordered);
    PassKeeps(all, all, ordered);
    var next := Pass(Names(all), all, ordered);
    PartialBound(all, next);
    if next == ordered then ordered else Passes(all, next)
  }

  /** The list the worklist ends with. */
  ghost function Final(all: seq<Interface>): seq<Interface> {
    Passes(all, [])
  }

  /** The names of the interfaces left over, in input order. */
  function Stuck(all: seq<Interface>, emitted: set<string>): seq<string> {
    if all == [] then []
    else (if all[0].name in emitted then [] else [all[0].name]) + Stuck(all[1..], emitted)
  }

  lemma PassesOnce(all: seq<Interface>, ordered: seq<Interface>)
    requires Partial(all, ordered)
    ensures Partial(all, Pass(Names(all), all, ordered))
    ensures Passes(all, ordered) == Passes(all, Pass(Names(all), all, ordered))
  {
    PassKeeps(all, all, ordered);
  }

  lemma PassesStop(all: seq<Interface>, ordered: seq<Interface>)
    requires Partial(all, ordered)
    ensures Pass(Names(all), all, ordered) == ordered ==> Passes(all, ordered) == ordered
  {
  }

  /** When all interfaces are out a pass adds nothing. */
  lemma PassOfAll(all: seq<Interface>, ordered: seq<Interface>)
    requires Partial(all, ordered) && |ordered| == |all|
    ensures Passes(all, ordered) == ordered
  {
    PassKeeps(all, all, ordered);
    PartialBound(all, Pass(Names(all), all, ordered));
  }

  lemma PassStep(names: set<string>, all: seq<Interface>, i: nat, ordered: seq<Interface>)
    requires i < |all|
    ensures Pass(names, all[i..], ordered) ==
            if all[i].name in Names(ordered) || !Ready(all[i], names, Names(ordered))
            then Pass(names, all[i + 1..], ordered)
            else Pass(names, all[i + 1..], ordered + [all[i]])
  {
    assert all[i..][1..] == all[i + 1..];
    hide Ready;
  }

  lemma PassDone(names: set<string>, all: seq<Interface>, ordered: seq<Interface>)
    ensures Pass(names, all[0..], ordered) == Pass(names, all, ordered)
    ensures Pass(names, all[|all|..], ordered) == ordered
  {
    assert all[0..] == all;
  }

  /** The inner loop: one sweep over the input, emitting what is ready. */
  method Sweep(all: seq<Interface>, names: set<string>, start: seq<Interface>, already: set<string>)
    returns (ordered: seq<Interface>, emitted: set<string>, progress: bool)
    requires names == Names(all) && Partial(all, start) && already == Names(start)
    ensures ordered == Pass(names, all, start) && emitted == Names(ordered) && Partial(all, ordered)
    ensures progress <==> ordered != start
  {
    hide Partial, Names, Pass, Deps, Ready;
    ordered, emitted, progress := start, already, false;
    PassDone(names, all, start);
    for i := 0 to |all|
      invariant Partial(all, ordered) && emitted == Names(ordered)
      invariant Pass(names, all[i..], ordered) == Pass(names, all, start)
      invariant start <= ordered && (progress <==> ordered != start)
    {
      var iface := all[i];
      PassStep(names, all, i, ordered);
      if iface.name in emitted {
        continue;
      }
      if Ready(iface, names, emitted) {
        AppendKeepsPartial(all, ordered, iface);
        NamesAppend(ordered, iface);
        ordered := ordered + [iface];
        emitted := emitted + {iface.name};
        progress := true;
      }
    }
    PassDone(names, all, ordered);
  }

  method Order(all: seq<Interface>) returns (r: Result<seq<Interface>, seq<string>>)
    ensures r == if |Final(all)| < |all| then Err(Stuck(all, Names(Final(all)))) else Ok(Final(all))
    ensures r.Ok? <==> DistinctNames(all) && !exists c :: Cycle(all, c)
    ensures r.Ok? ==> multiset(r.value) == multiset(all) && Topological(r.value, Names(all))
  {
    var names := Names(all);
    var emitted: set<string> := {};
    var ordered: seq<Interface> := [];
    var progress := true;
    assert Partial(all, ordered) && Names(ordered) == emitted && Passes(all, ordered) == Final(all);
    hide Partial, DistinctNames, Topological, Names, Pass, Passes, Final, Cycle, Stuck;
    while |ordered| < |all| && progress
      invariant Partial(all, ordered) && emitted == Names(ordered) && |ordered| <= |all|
      invariant Passes(all, ordered) == Final(all)
      invariant !progress ==> Passes(all, ordered) == ordered
      decreases |all| - |ordered|, progress
    {
      PassKeeps(all, all, ordered);
      PassesOnce(all, ordered);
      PassesStop(all, ordered);
      ordered, emitted, progress := Sweep(all, names, ordered, emitted);
      PartialBound(all, ordered);
    }
    if |ordered| == |all| {
      PassOfAll(all, ordered);
    }
    assert ordered == Final(all);
    SucceedsIff(all);
    if |ordered| < |all| {
      r := Err(Stuck(all, emitted));
    } else {
      SuccessIsTopological(all);
      r := Ok(ordered);
    }
  }

  // ---------------------------------------------------------------------------
  // Success
  // ---------------------------------------------------------------------------

  lemma {:induction false} PassesKeep(all: seq<Interface>, ordered: seq<Interface>)
    requires Partial(all, ordered)
    ensures var final := Passes(all, ordered);
            && Partial(all, final)
            && forall i :: 0 <= i < |all| ==> all[i].name in Names(final) || !Ready(all[i], Names(all), Names(final))
    decreases |all| - |ordered|
  {
    PartialBound(all, ordered);
    PassKeeps(all, all, ordered);
    var next := Pass(Names(all), all, ordered);
    PartialBound(all, next);
    if next != ordered {
      PassesKeep(all, next);
    }
  }

  lemma FinalKeeps(all: seq<Interface>)
    ensures Partial(all, Final(all))
    ensures forall i :: 0 <= i < |all| ==>
            all[i].name in Names(Final(all)) || !Ready(all[i], Names(all), Names(Final(all)))
  {
    PassesKeep(all, []);
  }

  lemma {:induction false} DistinctIsSubmultiset(ordered: seq<Interface>, all: seq<Interface>)
    requires DistinctNames(ordered) && forall i :: 0 <= i < |ordered| ==> ordered[i] in all
    ensures multiset(ordered) <= multiset(all)
  {
    if ordered != [] {
      var front, last := ordered[..|ordered| - 1], ordered[|ordered| - 1];
      DistinctIsSubmultiset(front, all);
      assert ordered == front + [last];
      assert last in multiset(all) && last !in front;
    }
  }

  lemma SameSizeSubmultiset(a: multiset<Interface>, b: multiset<Interface>)
    requires a <= b && |a| == |b|
    ensures a == b
  {
    assert b == a + (b - a);
    assert |b - a| == 0;
  }

  /** On success the output is a permutation of the input in dependency order. */
  lemma SuccessIsTopological(all: seq<Interface>)
    requires |Final(all)| == |all|
    ensures multiset(Final(all)) == multiset(all)
    ensures Topological(Final(all), Names(all))
    ensures DistinctNames(all)
  {
    FinalKeeps(all);
    DistinctIsSubmultiset(Final(all), all);
    SameSizeSubmultiset(multiset(Final(all)), multiset(all));
    PartialBound(all, Final(all));
    DistinctFromCount(all);
  }

  /** \w of the expression of line 187, by character code: digits, capitals, underscore, small letters. */
  lemma WordChars(c: char)
    ensures var code := c as int;
            IsWordChar(c) <==> 48 <= code <= 57 || 65 <= code <= 90 || code == 95 || 97 <= code <= 122
  {
  }

  /**
   Which references count: the element of an array interface, and a property whose whole text is a
   word, each only if an interface of the input has that name.
   */
  lemma CountedIff(iface: Interface, names: set<string>, target: string)
    ensures target in Deps(iface, names) <==>
            && target in names && target != ""
            && (iface.arrayOf == Some(target)
                || (target in iface.properties && forall i :: 0 <= i < |target| ==> IsWordChar(target[i])))
  {
  }

  /** So on success every interface comes after its element and after each interface that a property names bare. */
  lemma TargetsComeFirst(all: seq<Interface>, i: nat, target: string)
    requires |Final(all)| == |all| && i < |all|
    requires target in Names(all) && target != "" && target != Final(all)[i].name
    requires || Final(all)[i].arrayOf == Some(target)
             || (target in Final(all)[i].properties && forall k :: 0 <= k < |target| ==> IsWordChar(target[k]))
    ensures exists j :: 0 <= j < i && Final(all)[j].name == target
  {
    SuccessIsTopological(all);
    CountedIff(Final(all)[i], Names(all), target);
    assert target in Names(Final(all)[..i]);
    var j :| 0 <= j < |Final(all)[..i]| && Final(all)[..i][j].name == target;
    assert Final(all)[j] == Final(all)[..i][j];
  }

  /** A with a property B comes after B, whichever is read first. */
  lemma BareReferenceExample(a: Interface, b: Interface)
    requires a == Interface("A", None, ["B"]) && b == Interface("B", None, [])
    ensures Final([a, b]) == [b, a]
  {
    var all, names := [a, b], {"A", "B"};
    assert all[0] == a && all[1] == b && Names(all) == names;
    NamesAppend([], b);
    NamesAppend([b], a);
    assert [] + [b] == [b] && [b] + [a] == [b, a] && Names([]) == {};
    CountedIff(a, names, "B");
    assert Deps(a, names) == {"B"} && Deps(b, names) == {};
    assert "B" in Deps(a, names) && !Ready(a, names, {}) && Ready(b, names, {}) && Ready(a, names, {"B"});
    assert all[1..] == [b] && [b][1..] == [];
    assert Pass(names, [b], []) == Pass(names, [], [b]) == [b];
    assert Pass(names, all, []) == [b];
    assert Pass(names, [b], [b, a]) == Pass(names, [], [b, a]) == [b, a];
    assert Pass(names, all, [b]) == [b, a];
    PassesOnce(all, []);
    PassesOnce(all, [b]);
    PassOfAll(all, [b, a]);
  }

  lemma {:induction false} DistinctFromCount(all: seq<Interface>)
    requires |Names(all)| == |all|
    ensures DistinctNames(all)
  {
    if all != [] {
      var front, last := all[..|all| - 1], all[|all| - 1];
      NamesAppend(front, last);
      assert front + [last] == all;
      NamesBound(front);
      assert last.name in Names(front) ==> Names(all) == Names(front);
      if last.name !in Names(front) {
        DistinctFromCount(front);
        forall i, j | 0 <= i < j < |all| ensures all[i].name != all[j].name {
          assert front[i].name in Names(front);
        }
      }
    }
  }

  // ---------------------------------------------------------------------------
  // Cycles
  // ---------------------------------------------------------------------------

  /** One interface has another as a counted dependency. */
  ghost predicate Edge(all: seq<Interface>, a: string, b: string) {
    a != b && exists i :: 0 <= i < |all| && all[i].name == a && b in Deps(all[i], Names(all))
  }

  ghost predicate Chain(all: seq<Interface>, path: seq<string>) {
    path != [] && forall i :: 0 <= i < |path| - 1 ==> Edge(all, path[i], path[i + 1])
  }

  /** Two or more names, each depending on the next and the last on the first. */
  ghost predicate Cycle(all: seq<Interface>, c: seq<string>) {
    |c| >= 2 && Chain(all, c) && Edge(all, c[|c| - 1], c[0])
  }

  /** A chain of dependencies that comes back to itself. */
  ghost predicate Lasso(all: seq<Interface>, path: seq<string>) {
    |path| >= 2 && Chain(all, path) && exists j :: 0 <= j < |path| - 1 && path[j] == path[|path| - 1]
  }

  lemma LassoHasCycle(all: seq<Interface>, path: seq<string>) returns (c: seq<string>)
    requires Lasso(all, path)
    ensures Cycle(all, c)
  {
    var last := |path| - 1;
    var j :| 0 <= j < last && path[j] == path[last];
    assert Edge(all, path[last - 1], path[last]);
    c := path[j..last];
    forall i | 0 <= i < |c| - 1 ensures Edge(all, c[i], c[i + 1]) {
      assert Edge(all, path[j + i], path[j + i + 1]);
    }
  }

  lemma CycleIsLasso(all: seq<Interface>, c: seq<string>)
    requires Cycle(all, c)
    ensures Lasso(all, c + [c[0]])
  {
    var path := c + [c[0]];
    forall i | 0 <= i < |path| - 1 ensures Edge(all, path[i], path[i + 1]) {
      assert i < |c| - 1 ==> Edge(all, c[i], c[i + 1]);
    }
    assert path[0] == path[|path| - 1];
  }

  /** Where a name stands in a list of distinct names. */
  ghost function Position(ordered: seq<Interface>, n: string): (i: nat)
    requires n in Names(ordered)
    ensures i < |ordered| && ordered[i].name == n
  {
    var i :| 0 <= i < |ordered| && ordered[i].name == n;
    i
  }

  /** A dependency of an emitted interface is emitted, before it. */
  lemma EdgeGoesDown(all: seq<Interface>, ordered: seq<Interface>, a: string, b: string)
    requires DistinctNames(all) && Partial(all, ordered)
    requires a in Names(ordered) && Edge(all, a, b)
    ensures b in Names(ordered) && Position(ordered, b) < Position(ordered, a)
  {
    var k := Position(ordered, a);
    var i :| 0 <= i < |all| && all[i].name == a && b in Deps(all[i], Names(all));
    assert ordered[k] in all;
    assert ordered[k] == all[i];
    assert b in Names(ordered[..k]);
    var j :| 0 <= j < k && ordered[..k][j].name == b;
    assert ordered[j].name == b;
  }

  /** Following dependencies from an emitted interface goes strictly down the list. */
  lemma {:induction false} ChainGoesDown(all: seq<Interface>, ordered: seq<Interface>, path: seq<string>)
    requires DistinctNames(all) && Partial(all, ordered)
    requires Chain(all, path) && path[0] in Names(ordered)
    ensures forall i :: 0 <= i < |path| ==> path[i] in Names(ordered)
    ensures forall i :: 0 <= i < |path| - 1 ==> Position(ordered, path[|path| - 1]) < Position(ordered, path[i])
  {
    hide Partial, DistinctNames, Edge;
    var last := |path| - 1;
    if last > 0 {
      var front := path[..last];
      assert forall i :: 0 <= i < last - 1 ==> Edge(all, path[i], path[i + 1]);
      ChainGoesDown(all, ordered, front);
      assert front[last - 1] == path[last - 1];
      assert Edge(all, path[last - 1], path[last]);
      EdgeGoesDown(all, ordered, path[last - 1], path[last]);
      forall i | 0 <= i < last
        ensures path[i] in Names(ordered) && Position(ordered, path[last]) < Position(ordered, path[i])
      {
        assert front[i] == path[i];
      }
    }
  }

  /** An interface that is not ready has a dependency that is not emitted. */
  lemma StuckHasEdge(all: seq<Interface>, n: string) returns (m: string)
    requires n in Names(all) && n !in Names(Final(all))
    ensures Edge(all, n, m) && m in Names(all) && m !in Names(Final(all))
  {
    FinalKeeps(all);
    var i :| 0 <= i < |all| && all[i].name == n;
    assert !Ready(all[i], Names(all), Names(Final(all)));
    m :| m in Deps(all[i], Names(all)) && m !in Names(Final(all)) && m != n;
  }

  /** From a stuck name one can go on along stuck dependencies until a name repeats. */
  lemma {:induction false} FindLasso(all: seq<Interface>, path: seq<string>) returns (lasso: seq<string>)
    requires Chain(all, path) && Distinct(path)
    requires forall i :: 0 <= i < |path| ==> path[i] in Names(all) && path[i] !in Names(Final(all))
    ensures Lasso(all, lasso) && lasso[0] == path[0]
    decreases |Names(all)| - |path|
  {
    var m := StuckHasEdge(all, path[|path| - 1]);
    var longer := path + [m];
    forall i | 0 <= i < |longer| - 1 ensures Edge(all, longer[i], longer[i + 1]) {
      assert i < |path| - 1 ==> Edge(all, path[i], path[i + 1]);
    }
    if m in path {
      lasso := longer;
      var j :| 0 <= j < |path| && path[j] == m;
      assert longer[j] == longer[|longer| - 1];
    } else {
      DistinctPathBound(longer, Names(all));
      lasso := FindLasso(all, longer);
    }
  }

  lemma {:induction false} DistinctPathBound(path: seq<string>, names: set<string>)
    requires Distinct(path) && forall i :: 0 <= i < |path| ==> path[i] in names
    ensures |path| <= |names|
  {
    if path != [] {
      var last := path[|path| - 1];
      var front := path[..|path| - 1];
      forall i | 0 <= i < |front| ensures front[i] in names - {last} {
        assert front[i] == path[i];
      }
      DistinctPathBound(front, names - {last});
      assert |names - {last}| == |names| - 1;
    }
  }

  /**
   With distinct names, the interfaces left over are exactly those from which a chain of counted
   dependencies leads into a cycle.
   */
  lemma StuckIff(all: seq<Interface>, n: string)
    requires DistinctNames(all) && n in Names(all)
    ensures n !in Names(Final(all)) <==> exists path :: Lasso(all, path) && path[0] == n
  {
    if n !in Names(Final(all)) {
      assert Chain(all, [n]) && Distinct([n]);
      var lasso := FindLasso(all, [n]);
    }
    if path :| Lasso(all, path) && path[0] == n {
      if n in Names(Final(all)) {
        FinalKeeps(all);
        ChainGoesDown(all, Final(all), path);
        assert false;
      }
    }
  }

  /** The names the error message lists are the ones left over, in input order. */
  lemma {:induction false} StuckNames(all: seq<Interface>, emitted: set<string>, n: string)
    ensures n in Stuck(all, emitted) <==> n in Names(all) && n !in emitted
  {
    if all != [] {
      StuckNames(all[1..], emitted, n);
      assert all == [all[0]] + all[1..];
      if n in Names(all) && n != all[0].name {
        var i :| 0 <= i < |all| && all[i].name == n;
        assert all[1..][i - 1] == all[i];
      }
      if n in Names(all[1..]) {
        var i :| 0 <= i < |all[1..]| && all[1..][i].name == n;
        assert all[i + 1].name == n;
      }
      assert all[0].name in Names(all);
    }
  }

  /** The worklist succeeds exactly when names are distinct and no counted dependencies form a cycle. */
  lemma SucceedsIff(all: seq<Interface>)
    ensures |Final(all)| == |all| <==> DistinctNames(all) && !exists c :: Cycle(all, c)
  {
    FinalKeeps(all);
    PartialBound(all, Final(all));
    if |Final(all)| == |all| {
      SuccessIsTopological(all);
      if c :| Cycle(all, c) {
        CycleIsLasso(all, c);
        AllEmitted(all);
        assert Edge(all, c[0], c[1]);
        ChainGoesDown(all, Final(all), c + [c[0]]);
        assert false;
      }
    } else if DistinctNames(all) {
      var n := SomeStuck(all);
      assert Chain(all, [n]) && Distinct([n]);
      var lasso := FindLasso(all, [n]);
      var c := LassoHasCycle(all, lasso);
    }
  }

  lemma AllEmitted(all: seq<Interface>)
    requires |Final(all)| == |all|
    ensures Names(Final(all)) == Names(all)
  {
    FinalKeeps(all);
    PartialBound(all, Final(all));
    SubsetOfSameSize(Names(Final(all)), Names(all));
  }

  lemma SubsetOfSameSize(a: set<string>, b: set<string>)
    requires a <= b && |a| == |b|
    ensures a == b
  {
    assert b == a + (b - a);
    assert |b - a| == 0;
  }

  lemma Missing(a: set<string>, b: set<string>) returns (n: string)
    requires a <= b && |a| < |b|
    ensures n in b && n !in a
  {
    assert b == a + (b - a);
    assert b - a != {};
    n :| n in b - a;
  }

  lemma SomeStuck(all: seq<Interface>) returns (n: string)
    requires DistinctNames(all) && |Final(all)| != |all|
    ensures n in Names(all) && n !in Names(Final(all))
  {
    FinalKeeps(all);
    PartialBound(all, Final(all));
    DistinctCount(all);
    n := Missing(Names(Final(all)), Names(all));
  }

  // ---------------------------------------------------------------------------
  // References the order does not count
  // ---------------------------------------------------------------------------

  /** The interfaces a property text of the form Array<X> refers to. */
  function ArrayRefs(iface: Interface, names: set<string>): set<string> {
    set n | n in names && IsWord(n) && "Array<" + n + ">" in iface.properties
  }

  /** Type texts that `zodForType` handles before it looks for interface names. */
  const BUILT_IN: set<string> := {"string", "number", "bigint", "boolean"}

  /** The interfaces a property text that is a bare name refers to. */
  function BareRefs(iface: Interface, names: set<string>): set<string> {
    set p | p in iface.properties && IsWord(p) && p !in BUILT_IN && p in names
  }

  /**
   Every interface whose schema constant the emitted text of this one mentions. An array interface
   is emitted as an array of its element, without its properties.
   */
  function References(iface: Interface, names: set<string>): set<string> {
    if iface.arrayOf.Some? && iface.arrayOf.value != "" then
      if iface.arrayOf.value in names then {iface.arrayOf.value} else {}
    else BareRefs(iface, names) + ArrayRefs(iface, names)
  }

  /** No schema constant is mentioned before, or inside, its own declaration. */
  ghost predicate LoadSafe(ordered: seq<Interface>, names: set<string>) {
    forall i, r :: 0 <= i < |ordered| && r in References(ordered[i], names) ==> r in Names(ordered[..i])
  }

  /** A chain of one or more counted dependencies. */
  ghost predicate Leads(all: seq<Interface>, a: string, b: string) {
    exists path :: |path| >= 2 && Chain(all, path) && path[0] == a && path[|path| - 1] == b
  }

  ghost predicate Reordering(all: seq<Interface>, perm: seq<Interface>) {
    multiset(perm) == multiset(all)
  }

  lemma ReorderingMembers(all: seq<Interface>, perm: seq<Interface>)
    requires Reordering(all, perm)
    ensures |perm| == |all| && Names(perm) == Names(all)
    ensures forall x :: x in perm <==> x in all
  {
    assert |multiset(perm)| == |multiset(all)|;
    forall x ensures x in perm <==> x in all {
      assert x in multiset(perm) <==> x in multiset(all);
    }
    NamesOfMembers(all, perm);
    NamesOfMembers(perm, all);
  }

  lemma NamesOfMembers(a: seq<Interface>, b: seq<Interface>)
    requires forall x :: x in a ==> x in b
    ensures Names(a) <= Names(b)
  {
    forall n | n in Names(a) ensures n in Names(b) {
      var i :| 0 <= i < |a| && a[i].name == n;
      assert a[i] in b;
    }
  }

  lemma EdgeOfReordering(all: seq<Interface>, perm: seq<Interface>, a: string, b: string)
    requires Reordering(all, perm) && Edge(all, a, b)
    ensures Edge(perm, a, b)
  {
    ReorderingMembers(all, perm);
    var i :| 0 <= i < |all| && all[i].name == a && b in Deps(all[i], Names(all));
    assert all[i] in perm;
  }

  lemma ReorderingSucceeds(all: seq<Interface>, perm: seq<Interface>)
    requires Reordering(all, perm) && |Final(all)| == |all|
    ensures DistinctNames(perm) && |Final(perm)| == |perm|
  {
    SucceedsIff(all);
    ReorderingMembers(all, perm);
    DistinctCount(all);
    DistinctFromCount(perm);
    if c :| Cycle(perm, c) {
      forall i | 0 <= i < |c| - 1 ensures Edge(all, c[i], c[i + 1]) {
        EdgeOfReordering(perm, all, c[i], c[i + 1]);
      }
      EdgeOfReordering(perm, all, c[|c| - 1], c[0]);
      assert Cycle(all, c);
    }
    SucceedsIff(perm);
  }

  /** What a chain leads to is out first, in every order. */
  lemma LedToIsBefore(all: seq<Interface>, perm: seq<Interface>, i: nat, r: string)
    requires Reordering(all, perm) && |Final(all)| == |all|
    requires i < |Final(perm)| && Leads(all, Final(perm)[i].name, r)
    ensures r in Names(Final(perm)[..i])
  {
    var f, a := Final(perm), Final(perm)[i].name;
    ReorderingSucceeds(all, perm);
    FinalKeeps(perm);
    var path :| |path| >= 2 && Chain(all, path) && path[0] == a && path[|path| - 1] == r;
    forall k | 0 <= k < |path| - 1 ensures Edge(perm, path[k], path[k + 1]) {
      EdgeOfReordering(all, perm, path[k], path[k + 1]);
    }
    assert a in Names(f);
    ChainGoesDown(perm, f, path);
    var j := Position(f, r);
    assert Position(f, a) == i;
    assert f[..i][j].name == r;
  }

  // A list that is in dependency order already comes out as it went in.

  ghost predicate InOrder(names: set<string>, before: set<string>, s: seq<Interface>)
    decreases s
  {
    s != [] ==> (forall d :: d in Deps(s[0], names) ==> d in before || d == s[0].name)
                && InOrder(names, before + {s[0].name}, s[1..])
  }

  lemma {:induction false} InOrderMonotone(
    names: set<string>, before: set<string>, more: set<string>, s: seq<Interface>)
    requires InOrder(names, before, s) && before <= more
    ensures InOrder(names, more, s)
    decreases s
  {
    if s != [] {
      InOrderMonotone(names, before + {s[0].name}, more + {s[0].name}, s[1..]);
    }
  }

  lemma {:induction false} PassOfInOrder(names: set<string>, rest: seq<Interface>, ordered: seq<Interface>)
    requires InOrder(names, Names(ordered), rest) && DistinctNames(ordered + rest)
    ensures Pass(names, rest, ordered) == ordered + rest
  {
    if rest == [] {
      assert ordered + rest == ordered;
    } else {
      assert (ordered + [rest[0]]) + rest[1..] == ordered + rest;
      NextIsNew(ordered, rest);
      NamesAppend(ordered, rest[0]);
      PassOfInOrder(names, rest[1..], ordered + [rest[0]]);
    }
  }

  lemma NextIsNew(ordered: seq<Interface>, rest: seq<Interface>)
    requires rest != [] && DistinctNames(ordered + rest)
    ensures rest[0].name !in Names(ordered)
  {
    forall i | 0 <= i < |ordered| ensures ordered[i].name != rest[0].name {
      assert (ordered + rest)[i] == ordered[i] && (ordered + rest)[|ordered|] == rest[0];
    }
  }

  lemma FinalOfInOrder(all: seq<Interface>)
    requires DistinctNames(all) && InOrder(Names(all), {}, all)
    ensures Final(all) == all
  {
    assert [] + all == all && Names([]) == {};
    PassOfInOrder(Names(all), all, []);
    PassesOnce(all, []);
    PassOfAll(all, all);
  }

  /** A topological list is in order. */
  lemma {:induction false} TopologicalInOrder(names: set<string>, s: seq<Interface>, k: nat)
    requires Topological(s, names) && k <= |s|
    ensures InOrder(names, Names(s[..k]), s[k..])
    decreases |s| - k
  {
    if k < |s| {
      TopologicalInOrder(names, s, k + 1);
      NamesAppend(s[..k], s[k]);
      assert s[..k] + [s[k]] == s[..k + 1];
      assert s[k..][1..] == s[k + 1..];
    }
  }

  /** The part of a list whose names are in, or out of, a set. */
  function Select(s: seq<Interface>, c: set<string>, keep: bool): seq<Interface> {
    if s == [] then []
    else (if (s[0].name in c) == keep then [s[0]] else []) + Select(s[1..], c, keep)
  }

  lemma {:induction false} SelectMembers(s: seq<Interface>, c: set<string>)
    ensures multiset(Select(s, c, true)) + multiset(Select(s, c, false)) == multiset(s)
    ensures forall x :: x in Select(s, c, true) ==> x in s && x.name in c
    ensures forall x :: x in Select(s, c, false) ==> x in s && x.name !in c
  {
    if s != [] {
      SelectMembers(s[1..], c);
      assert s == [s[0]] + s[1..];
    }
  }

  /** The set is closed under dependencies, as far as the list goes. */
  ghost predicate DownClosed(names: set<string>, s: seq<Interface>, c: set<string>) {
    forall x, d :: x in s && x.name in c && d in Deps(x, names) ==> d in c
  }

  lemma {:induction false} KeptInOrder(names: set<string>, before: set<string>, s: seq<Interface>, c: set<string>)
    requires InOrder(names, before, s) && DownClosed(names, s, c)
    ensures InOrder(names, before * c, Select(s, c, true))
    decreases s
  {
    if s != [] {
      var head, rest := s[0], s[1..];
      KeptInOrder(names, before + {head.name}, rest, c);
      if head.name in c {
        assert Select(s, c, true) == [head] + Select(rest, c, true);
        assert (before + {head.name}) * c == before * c + {head.name};
        assert Select(s, c, true)[1..] == Select(rest, c, true);
        assert head in s;
      } else {
        assert (before + {head.name}) * c == before * c;
        assert Select(s, c, true) == Select(rest, c, true);
      }
    }
  }

  lemma {:induction false} DroppedInOrder(names: set<string>, before: set<string>, s: seq<Interface>, c: set<string>)
    requires InOrder(names, before, s)
    ensures InOrder(names, before + c, Select(s, c, false))
    decreases s
  {
    if s != [] {
      var head, rest := s[0], s[1..];
      DroppedInOrder(names, before + {head.name}, rest, c);
      if head.name in c {
        assert before + {head.name} + c == before + c;
        assert Select(s, c, false) == Select(rest, c, false);
      } else {
        assert Select(s, c, false)[1..] == Select(rest, c, false);
        assert before + c + {head.name} == before + {head.name} + c;
      }
    }
  }

  lemma {:induction false} InOrderAppend(names: set<string>, before: set<string>, a: seq<Interface>, b: seq<Interface>)
    requires InOrder(names, before, a) && InOrder(names, before + Names(a), b)
    ensures InOrder(names, before, a + b)
    decreases a
  {
    if a == [] {
      assert a + b == b && before + Names(a) == before;
    } else {
      NamesCons(a);
      assert before + {a[0].name} + Names(a[1..]) == before + Names(a);
      InOrderAppend(names, before + {a[0].name}, a[1..], b);
      assert (a + b)[1..] == a[1..] + b;
    }
  }

  lemma NamesCons(a: seq<Interface>)
    requires a != []
    ensures Names(a) == {a[0].name} + Names(a[1..])
  {
    forall n ensures n in Names(a) <==> n in {a[0].name} + Names(a[1..]) {
      if n in Names(a) && n != a[0].name {
        var i :| 0 <= i < |a| && a[i].name == n;
        assert a[1..][i - 1].name == n;
      }
      if n in Names(a[1..]) {
        var i :| 0 <= i < |a[1..]| && a[1..][i].name == n;
        assert a[i + 1].name == n;
      }
    }
  }

  /** What a name leads to, with the name itself. */
  ghost function Closure(all: seq<Interface>, a: string): set<string> {
    set n | n in Names(all) && (n == a || Leads(all, a, n))
  }

  lemma ClosureIsDownClosed(all: seq<Interface>, a: string)
    requires DistinctNames(all)
    ensures DownClosed(Names(all), all, Closure(all, a))
  {
    forall x, d | x in all && x.name in Closure(all, a) && d in Deps(x, Names(all))
      ensures d in Closure(all, a)
    {
      if d != x.name {
        var i :| 0 <= i < |all| && all[i] == x;
        assert Edge(all, x.name, d);
        if x.name == a {
          assert Chain(all, [a, d]);
        } else {
          var path :| |path| >= 2 && Chain(all, path) && path[0] == a && path[|path| - 1] == x.name;
          ChainExtends(all, path, d);
        }
      }
    }
  }

  lemma ChainExtends(all: seq<Interface>, path: seq<string>, d: string)
    requires Chain(all, path) && Edge(all, path[|path| - 1], d)
    ensures Chain(all, path + [d])
  {
    var longer := path + [d];
    forall i | 0 <= i < |longer| - 1 ensures Edge(all, longer[i], longer[i + 1]) {
      assert i < |path| - 1 ==> Edge(all, path[i], path[i + 1]);
    }
  }

  /** The first k names are those in the set. */
  ghost predicate SplitAt(perm: seq<Interface>, k: nat, c: set<string>) {
    && k <= |perm|
    && (forall i :: 0 <= i < k ==> perm[i].name in c)
    && (forall i :: k <= i < |perm| ==> perm[i].name !in c)
  }

  /** Both parts of a topological list, one after the other, are in order when the first is closed. */
  lemma SelectedInOrder(names: set<string>, f: seq<Interface>, c: set<string>)
    requires Topological(f, names) && DownClosed(names, f, c) && Names(Select(f, c, true)) == c
    ensures InOrder(names, {}, Select(f, c, true) + Select(f, c, false))
  {
    TopologicalInOrder(names, f, 0);
    assert f[..0] == [] && f[0..] == f && Names(f[..0]) == {};
    KeptInOrder(names, {}, f, c);
    assert {} * c == {};
    DroppedInOrder(names, {}, f, c);
    assert {} + c == c;
    InOrderAppend(names, {}, Select(f, c, true), Select(f, c, false));
  }

  lemma OwnOrder(all: seq<Interface>, perm: seq<Interface>)
    requires Reordering(all, perm) && DistinctNames(all) && InOrder(Names(all), {}, perm)
    ensures Final(perm) == perm
  {
    ReorderingMembers(all, perm);
    DistinctCount(all);
    DistinctFromCount(perm);
    FinalOfInOrder(perm);
  }

  /** Some order of the same interfaces emits a name's dependencies with the name first, then the rest. */
  lemma ClosureFirst(all: seq<Interface>, a: string) returns (perm: seq<Interface>, k: nat)
    requires |Final(all)| == |all|
    ensures Reordering(all, perm) && Final(perm) == perm
    ensures SplitAt(perm, k, Closure(all, a))
  {
    var f, c := Final(all), Closure(all, a);
    var first, second := Select(f, c, true), Select(f, c, false);
    perm, k := first + second, |first|;
    SuccessIsTopological(all);
    SelectMembers(f, c);
    ClosureNames(all, f, c, first, second);
    ReorderingMembers(all, f);
    ClosureIsDownClosed(all, a);
    hide Partial, Topological, Closure, Final, Leads, Select;
    SelectedInOrder(Names(all), f, c);
    OwnOrder(all, perm);
    SelectSplits(f, c);
  }

  lemma SelectSplits(f: seq<Interface>, c: set<string>)
    ensures SplitAt(Select(f, c, true) + Select(f, c, false), |Select(f, c, true)|, c)
  {
    var first, second := Select(f, c, true), Select(f, c, false);
    var perm := first + second;
    SelectMembers(f, c);
    hide Select;
    forall i | 0 <= i < |first| ensures perm[i].name in c {
      assert perm[i] == first[i] && first[i] in first;
    }
    forall i | |first| <= i < |perm| ensures perm[i].name !in c {
      assert perm[i] == second[i - |first|] && second[i - |first|] in second;
    }
  }

  lemma ClosureNames(
    all: seq<Interface>, f: seq<Interface>, c: set<string>, first: seq<Interface>, second: seq<Interface>)
    requires c <= Names(all) && Reordering(all, f) && multiset(first) + multiset(second) == multiset(f)
    requires (forall x :: x in first ==> x.name in c) && (forall x :: x in second ==> x.name !in c)
    ensures Names(first) == c
  {
    ReorderingMembers(all, f);
    forall n | n in c ensures n in Names(first) {
      var i :| 0 <= i < |f| && f[i].name == n;
      assert f[i] in multiset(first) + multiset(second);
      assert f[i] in first;
      var j :| 0 <= j < |first| && first[j] == f[i];
    }
    forall n | n in Names(first) ensures n in c {
      var j :| 0 <= j < |first| && first[j].name == n;
      assert first[j] in first;
    }
  }

  /** Every reference of every interface is to another one that counted dependencies lead to. */
  ghost predicate ReferencesCounted(all: seq<Interface>) {
    forall x, r :: x in all && r in References(x, Names(all)) ==> r != x.name && Leads(all, x.name, r)
  }

  /**
   The comment on the worklist promises that every interface comes after those it references.
   Array<X> properties are references that the order does not count, and self references are
   let through. For inputs without cycles the promise holds in every order of the input exactly
   when each reference is to another interface that counted dependencies lead to.
   */
  lemma LoadSafeInEveryOrderIff(all: seq<Interface>)
    requires |Final(all)| == |all|
    ensures (forall perm :: Reordering(all, perm) ==> LoadSafe(Final(perm), Names(all))) <==> ReferencesCounted(all)
  {
    if ReferencesCounted(all) {
      forall perm | Reordering(all, perm) ensures LoadSafe(Final(perm), Names(all)) {
        CountedIsSafe(all, perm);
      }
    } else {
      var x, r :| x in all && r in References(x, Names(all)) && !(r != x.name && Leads(all, x.name, r));
      var perm, k := ClosureFirst(all, x.name);
      ReorderingSucceeds(all, perm);
      UnsafeOrder(all, perm, k, x, r);
    }
  }

  lemma CountedIsSafe(all: seq<Interface>, perm: seq<Interface>)
    requires |Final(all)| == |all| && ReferencesCounted(all) && Reordering(all, perm)
    ensures LoadSafe(Final(perm), Names(all))
  {
    ReorderingSucceeds(all, perm);
    SuccessIsTopological(perm);
    ReorderingMembers(all, Final(perm));
    hide Leads, Final, References;
    forall i, r | 0 <= i < |Final(perm)| && r in References(Final(perm)[i], Names(all))
      ensures r in Names(Final(perm)[..i])
    {
      assert Final(perm)[i] in all;
      LedToIsBefore(all, perm, i, r);
    }
  }

  lemma UnsafeOrder(all: seq<Interface>, perm: seq<Interface>, k: nat, x: Interface, r: string)
    requires Reordering(all, perm) && DistinctNames(perm) && SplitAt(perm, k, Closure(all, x.name))
    requires x in all && r in References(x, Names(all)) && !(r != x.name && Leads(all, x.name, r))
    ensures !LoadSafe(perm, Names(all))
  {
    ReorderingMembers(all, perm);
    hide Leads, References;
    var i :| 0 <= i < |perm| && perm[i] == x;
    var l :| 0 <= l < |all| && all[l] == x;
    assert x.name in Closure(all, x.name);
    assert i < k;
    forall j | 0 <= j < i ensures perm[j].name != r {
      assert perm[j].name in Closure(all, x.name);
    }
    forall j | 0 <= j < i ensures perm[..i][j].name != r {
      assert perm[..i][j] == perm[j];
    }
    assert r !in Names(perm[..i]);
  }

  /** An array of B with a property Array<C> mentions B alone, which is counted: every order of it loads. */
  lemma ArrayInterfaceExample(a: Interface, b: Interface, c: Interface)
    requires a == Interface("A", Some("B"), ["Array<C>"]) && b == Interface("B", None, [])
    requires c == Interface("C", None, [])
    ensures References(a, {"A", "B", "C"}) == {"B"} && Deps(a, {"A", "B", "C"}) == {"B"}
    ensures References(b, {"A", "B", "C"}) == {} && References(c, {"A", "B", "C"}) == {}
  {
    assert !IsWord("Array<C>") by {
      assert "Array<C>"[5] == '<';
    }
  }

  /**
   The error text speaks of unresolved references, but a reference to an interface that is not in
   the input is filtered out beforehand: this input succeeds.
   */
  lemma UnresolvedReferenceExample(a: Interface)
    requires a == Interface("A", None, ["Missing"])
    ensures Final([a]) == [a] && "Missing" !in Names([a])
  {
    var all := [a];
    assert all[0] == a && Names(all) == {"A"};
    assert Deps(a, {"A"}) == {};
    assert InOrder(Names(all), {}, all);
    FinalOfInOrder(all);
  }

  /** An interface with its references to unknown interfaces left out. */
  function Resolved(iface: Interface, names: set<string>): Interface {
    Interface(
      iface.name,
      if iface.arrayOf.Some? && iface.arrayOf.value in names then iface.arrayOf else None,
      KnownOnly(iface.properties, names))
  }

  function KnownOnly(properties: seq<string>, names: set<string>): (known: seq<string>)
    ensures forall p :: p in known <==> p in properties && (IsWord(p) ==> p in names)
  {
    if properties == [] then []
    else if IsWord(properties[0]) && properties[0] !in names then KnownOnly(properties[1..], names)
    else [properties[0]] + KnownOnly(properties[1..], names)
  }

  function AllResolved(all: seq<Interface>, names: set<string>): seq<Interface> {
    seq(|all|, i requires 0 <= i < |all| => Resolved(all[i], names))
  }

  /** Two lists of the same names with the same counted dependencies. */
  ghost predicate Alike(names: set<string>, a: seq<Interface>, b: seq<Interface>) {
    |a| == |b| && forall i :: 0 <= i < |a| ==> a[i].name == b[i].name && Deps(a[i], names) == Deps(b[i], names)
  }

  lemma AlikeNames(names: set<string>, a: seq<Interface>, b: seq<Interface>)
    requires Alike(names, a, b)
    ensures Names(a) == Names(b)
  {
    hide Deps;
    forall n ensures n in Names(a) <==> n in Names(b) {
      if n in Names(a) {
        var i :| 0 <= i < |a| && a[i].name == n;
        assert b[i].name == n;
      }
      if n in Names(b) {
        var i :| 0 <= i < |b| && b[i].name == n;
        assert a[i].name == n;
      }
    }
  }

  lemma {:induction false} PassAlike(
    names: set<string>, a: seq<Interface>, b: seq<Interface>, x: seq<Interface>, y: seq<Interface>)
    requires Alike(names, a, b) && Alike(names, x, y)
    ensures Alike(names, Pass(names, a, x), Pass(names, b, y))
  {
    hide Deps;
    if a != [] {
      AlikeNames(names, x, y);
      assert Ready(a[0], names, Names(x)) == Ready(b[0], names, Names(y));
      assert Alike(names, a[1..], b[1..]);
      if a[0].name in Names(x) || !Ready(a[0], names, Names(x)) {
        PassAlike(names, a[1..], b[1..], x, y);
      } else {
        PassAlike(names, a[1..], b[1..], x + [a[0]], y + [b[0]]);
      }
    }
  }

  lemma {:induction false} PassesAlike(a: seq<Interface>, b: seq<Interface>, x: seq<Interface>, y: seq<Interface>)
    requires Names(a) == Names(b) && Partial(a, x) && Partial(b, y)
    requires Alike(Names(a), a, b) && Alike(Names(a), x, y)
    ensures Alike(Names(a), Passes(a, x), Passes(b, y))
    decreases |a| - |x|
  {
    var names := Names(a);
    var next, other := Pass(names, a, x), Pass(names, b, y);
    PassKeeps(a, a, x);
    PassKeeps(b, b, y);
    PassAlike(names, a, b, x, y);
    PartialBound(a, next);
    hide Partial, Names, Deps, Pass;
    assert next == x <==> |next| == |x|;
    assert other == y <==> |other| == |y|;
    if next != x {
      PassesAlike(a, b, next, other);
    }
  }

  lemma {:induction false} StuckAlike(names: set<string>, a: seq<Interface>, b: seq<Interface>, emitted: set<string>)
    requires Alike(names, a, b)
    ensures Stuck(a, emitted) == Stuck(b, emitted)
  {
    hide Deps;
    if a != [] {
      assert Alike(names, a[1..], b[1..]);
      StuckAlike(names, a[1..], b[1..], emitted);
    }
  }

  lemma ResolvedIsAlike(all: seq<Interface>)
    ensures Alike(Names(all), all, AllResolved(all, Names(all))) && Names(AllResolved(all, Names(all))) == Names(all)
  {
    var names := Names(all);
    var known := AllResolved(all, names);
    forall i | 0 <= i < |all| ensures Deps(all[i], names) == Deps(known[i], names) {
      assert known[i] == Resolved(all[i], names);
      hide IsWord;
    }
    AlikeNames(names, all, known);
  }

  /**
   Unresolved references make no difference to the outcome: with all of them left out, the same
   interfaces are emitted in the same order, and the same ones are left over. So none of them is
   ever the cause of the error.
   */
  lemma UnresolvedNeverCounts(all: seq<Interface>)
    ensures var known := AllResolved(all, Names(all));
            && Names(known) == Names(all)
            && Alike(Names(all), Final(all), Final(known))
            && (|Final(all)| < |all| <==> |Final(known)| < |known|)
            && Stuck(all, Names(Final(all))) == Stuck(known, Names(Final(known)))
  {
    var known := AllResolved(all, Names(all));
    ResolvedIsAlike(all);
    hide Deps, Resolved;
    PassesAlike(all, known, [], []);
    AlikeNames(Names(all), Final(all), Final(known));
    StuckAlike(Names(all), all, known, Names(Final(all)));
  }

  /** An Array<B> property of A puts no edge between them, yet A's emitted text mentions B's constant. */
  lemma ArrayReferenceExample(a: Interface, b: Interface)
    requires a == Interface("A", None, ["Array<B>"]) && b == Interface("B", None, [])
    ensures Final([a, b]) == [a, b] && !LoadSafe([a, b], {"A", "B"})
  {
    var all := [a, b];
    assert all[0] == a && all[1] == b;
    assert Names(all) == {"A", "B"};
    assert !IsWord("Array<B>") by {
      assert "Array<B>"[5] == '<';
    }
    assert Deps(a, Names(all)) == {} && Deps(b, Names(all)) == {};
    assert InOrder(Names(all), {}, all);
    FinalOfInOrder(all);
    assert "Array<" + "B" + ">" == "Array<B>";
    assert "B" in References(a, {"A", "B"});
    assert all[..0] == [] && "B" !in Names(all[..0]);
  }
}
