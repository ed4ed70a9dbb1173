/**
  The plugin vector, the map from plugin ids to library handles, and the reference
  counts of the dynamic loader under load, add, remove, reload and clear.
 */
module Registry {
  import opened Options

  /** A loaded plugin; one that is connected over TCP has no library. */
  datatype Entry = Entry(id: string, lib: Option<string>)

  /** How an attempt to load ends: bad configuration, failed open, no entry point, success. */
  datatype Outcome = Rejected | OpenFailed | NoSymbol | Loaded

  /**
    `refs` holds every library as often as it is open; `leaked` is the history of
    libraries whose plugin is gone without a close; `fault` records a close of a
    handle that is not open and the use of a plugin that was not loaded.
   */
  datatype View = View(
    plugins: seq<Entry>,
    handles: map<string, Option<string>>,
    refs: multiset<string>,
    leaked: multiset<string>,
    fault: bool)

  const EMPTY: View := View([], map[], multiset{}, multiset{}, false)

  // --- The operations ------------------------------------------------------------------

  function Find(ps: seq<Entry>, id: string): (i: nat)
    ensures i <= |ps|
    ensures forall k | 0 <= k < i :: ps[k].id != id
    ensures i < |ps| ==> ps[i].id == id
  {
    if ps == [] || ps[0].id == id then 0 else 1 + Find(ps[1..], id)
  }

  function Without(ps: seq<Entry>, i: nat): seq<Entry>
    requires i < |ps|
  {
    ps[..i] + ps[i + 1..]
  }

  function LibOf(e: Entry): multiset<string> {
    match e.lib case None => multiset{} case Some(l) => multiset{l}
  }

  function IdOf(e: Entry): multiset<string> {
    multiset{e.id}
  }

  function Sum(f: Entry -> multiset<string>, ps: seq<Entry>): multiset<string> {
    if ps == [] then multiset{} else f(ps[0]) + Sum(f, ps[1..])
  }

  /** The libraries of the loaded plugins, each as often as a plugin uses it. */
  function Libs(ps: seq<Entry>): multiset<string> {
    Sum(LibOf, ps)
  }

  function Ids(ps: seq<Entry>): multiset<string> {
    Sum(IdOf, ps)
  }

  function Load(v: View, id: string, path: string, outcome: Outcome): View {
    match outcome
    case Rejected => v
    case OpenFailed => v
    case NoSymbol => v.(refs := v.refs + multiset{path}, leaked := v.leaked + multiset{path})
    case Loaded =>
      v.(refs := v.refs + multiset{path},
         handles := v.handles[id := Some(path)],
         plugins := v.plugins + [Entry(id, Some(path))])
  }

  function AddTcp(v: View, id: string): View {
    v.(plugins := v.plugins + [Entry(id, None)])
  }

  function Remove(v: View, id: string): View {
    var i := Find(v.plugins, id);
    if i == |v.plugins| then v
    else v.(plugins := Without(v.plugins, i), leaked := v.leaked + LibOf(v.plugins[i]))
  }

  function Clear(v: View): View {
    v.(plugins := [], leaked := v.leaked + Libs(v.plugins))
  }

  /** Looking up a missing id inserts a null handle. */
  function Handle(v: View, id: string): Option<string> {
    if id in v.handles then v.handles[id] else None
  }

  function Close(v: View, handle: Option<string>): View {
    match handle
    case None => v.(fault := true)
    case Some(l) => if l in v.refs then v.(refs := v.refs - multiset{l}) else v.(fault := true)
  }

  /** The first half of a reload: the plugin is destroyed, then its library is closed. */
  function Unload(v: View, id: string): View {
    var i := Find(v.plugins, id);
    if i == |v.plugins| then v
    else Close(v.(plugins := Without(v.plugins, i), handles := v.handles[id := Handle(v, id)]), Handle(v, id))
  }

  function Reload(v: View, id: string, path: string, outcome: Outcome): View {
    if Find(v.plugins, id) == |v.plugins| then v
    else
      var loaded := Load(Unload(v, id), id, path, outcome);
      if outcome == Loaded then loaded else loaded.(fault := true)
  }

  datatype Op =
    | LoadOp(id: string, path: string, outcome: Outcome)
    | AddTcpOp(id: string)
    | RemoveOp(id: string)
    | ReloadOp(id: string, path: string, outcome: Outcome)
    | ClearOp

  function Apply(v: View, op: Op): View {
    match op
    case LoadOp(id, path, outcome) => Load(v, id, path, outcome)
    case AddTcpOp(id) => AddTcp(v, id)
    case RemoveOp(id) => Remove(v, id)
    case ReloadOp(id, path, outcome) => Reload(v, id, path, outcome)
    case ClearOp => Clear(v)
  }

  // --- Runs ------------------------------------------------------------------------------

  function Exec(v: View, ops: seq<Op>): View
    decreases |ops|
  {
    if ops == [] then v else Exec(Apply(v, ops[0]), ops[1..])
  }

  /** The property holds at the beginning and after every operation. */
  predicate Always(good: View -> bool, v: View, ops: seq<Op>)
    decreases |ops|
  {
    good(v) && (ops == [] || Always(good, Apply(v, ops[0]), ops[1..]))
  }

  /** Every operation meets the condition when its turn comes. */
  predicate EachMeets(rule: (View, Op) -> bool, v: View, ops: seq<Op>)
    decreases |ops|
  {
    ops == [] || (rule(v, ops[0]) && EachMeets(rule, Apply(v, ops[0]), ops[1..]))
  }

  /** What is exact for one operation is exact for every run. */
  lemma {:induction false} RunIff(good: View -> bool, rule: (View, Op) -> bool, v: View, ops: seq<Op>)
    requires good(v)
    requires forall w, op :: good(w) ==> (good(Apply(w, op)) <==> rule(w, op))
    ensures Always(good, v, ops) <==> EachMeets(rule, v, ops)
    ensures EachMeets(rule, v, ops) ==> good(Exec(v, ops))
    decreases |ops|
  {
    hide Apply;
    if ops != [] {
      var next := Apply(v, ops[0]);
      if rule(v, ops[0]) {
        RunIff(good, rule, next, ops[1..]);
      } else {
        assert !Always(good, next, ops[1..]);
      }
    }
  }

  /** A stricter rule, as long as it keeps up what makes it stricter. */
  lemma {:induction false} StricterRule(
      good: View -> bool, strict: (View, Op) -> bool, rule: (View, Op) -> bool, v: View, ops: seq<Op>)
    requires good(v) && EachMeets(strict, v, ops)
    requires forall w, op :: good(w) && strict(w, op) ==> good(Apply(w, op)) && rule(w, op)
    ensures EachMeets(rule, v, ops)
    decreases |ops|
  {
    hide Apply;
    if ops != [] {
      StricterRule(good, strict, rule, Apply(v, ops[0]), ops[1..]);
    }
  }

  // --- Sums over the plugins ---------------------------------------------------------------

  lemma SumAssoc(a: multiset<string>, b: multiset<string>, c: multiset<string>)
    ensures (a + b) + c == a + (b + c)
  {
  }

  lemma SumSwap(a: multiset<string>, b: multiset<string>, c: multiset<string>)
    ensures a + (b + c) == (a + c) + b
  {
  }

  /** Of a sum `r + own`, taking one element away leaves `r` only if that element is `own`. */
  lemma TakeOne(r: multiset<string>, own: multiset<string>, l: string)
    requires l in r + own
    ensures (r + own) - multiset{l} == r <==> own == multiset{l}
  {
    if (r + own) - multiset{l} == r {
      assert forall x :: own[x] == ((r + own) - multiset{l})[x] + multiset{l}[x] - r[x];
    }
  }

  lemma Cancel(a: multiset<string>, b: multiset<string>, c: multiset<string>)
    ensures a + c == b + c <==> a == b
    ensures a + c <= b + c <==> a <= b
  {
    if a + c == b + c {
      forall x ensures a[x] == b[x] { assert (a + c)[x] == (b + c)[x]; }
    }
    if a + c <= b + c {
      forall x ensures a[x] <= b[x] { assert (a + c)[x] <= (b + c)[x]; }
    }
  }

  lemma {:induction false} SumAppend(f: Entry -> multiset<string>, ps: seq<Entry>, qs: seq<Entry>)
    ensures Sum(f, ps + qs) == Sum(f, ps) + Sum(f, qs)
    decreases |ps|
  {
    if ps == [] {
      assert ps + qs == qs;
    } else {
      assert (ps + qs)[0] == ps[0] && (ps + qs)[1..] == ps[1..] + qs;
      SumAppend(f, ps[1..], qs);
      SumAssoc(f(ps[0]), Sum(f, ps[1..]), Sum(f, qs));
    }
  }

  lemma SumOne(f: Entry -> multiset<string>, e: Entry)
    ensures Sum(f, [e]) == f(e)
  {
    assert [e][1..] == [];
    assert f(e) + multiset{} == f(e);
  }

  lemma SumWith(f: Entry -> multiset<string>, ps: seq<Entry>, e: Entry)
    ensures Sum(f, ps + [e]) == Sum(f, ps) + f(e)
  {
    SumAppend(f, ps, [e]);
    SumOne(f, e);
  }

  lemma SplitAround(ps: seq<Entry>, i: nat)
    requires i < |ps|
    ensures ps == ps[..i] + ([ps[i]] + ps[i + 1..])
  {
  }

  lemma SumWithout(f: Entry -> multiset<string>, ps: seq<Entry>, i: nat)
    requires i < |ps|
    ensures Sum(f, ps) == Sum(f, Without(ps, i)) + f(ps[i])
  {
    hide Sum;
    SplitAround(ps, i);
    SumAppend(f, ps[..i], [ps[i]] + ps[i + 1..]);
    SumAppend(f, [ps[i]], ps[i + 1..]);
    SumAppend(f, ps[..i], ps[i + 1..]);
    SumOne(f, ps[i]);
    SumSwap(Sum(f, ps[..i]), f(ps[i]), Sum(f, ps[i + 1..]));
  }

  lemma LibsWith(ps: seq<Entry>, e: Entry)
    ensures Libs(ps + [e]) == Libs(ps) + LibOf(e)
  {
    SumWith(LibOf, ps, e);
  }

  lemma LibsWithout(ps: seq<Entry>, i: nat)
    requires i < |ps|
    ensures Libs(ps) == Libs(Without(ps, i)) + LibOf(ps[i])
  {
    SumWithout(LibOf, ps, i);
  }

  // --- Conservation ----------------------------------------------------------------------------

  /** What is open is what the loaded plugins use and what has leaked, and no handle was misused. */
  predicate Accounts(v: View) {
    !v.fault && v.refs == Libs(v.plugins) + v.leaked
  }

  /**
    Only a reload can be wrong: it needs a plugin with a library, the handle on
    record must be that library's, and the second load must succeed.
   */
  predicate Sound(v: View, op: Op) {
    op.ReloadOp? ==>
      var i := Find(v.plugins, op.id);
      i < |v.plugins| ==>
        v.plugins[i].lib.Some? && op.outcome == Loaded && Handle(v, op.id) == v.plugins[i].lib
  }

  lemma LoadKeepsAccounts(v: View, id: string, path: string, outcome: Outcome)
    ensures Accounts(Load(v, id, path, outcome)) <==> Accounts(v)
  {
    hide Libs, LibOf;
    var used, one := Libs(v.plugins), multiset{path};
    SumSwap(used, one, v.leaked);
    SumAssoc(used, v.leaked, one);
    SumAssoc(used, one, v.leaked);
    SumSwap(used, v.leaked, one);
    Cancel(v.refs, used + v.leaked, one);
    LibsWith(v.plugins, Entry(id, Some(path)));
    assert LibOf(Entry(id, Some(path))) == one by { LibOfLoaded(id, path); }
  }

  lemma LibOfLoaded(id: string, path: string)
    ensures LibOf(Entry(id, Some(path))) == multiset{path}
  {
  }

  /** In the middle of a reload the accounts are right exactly when the right library was closed. */
  lemma UnloadAccounts(v: View, id: string)
    requires Accounts(v) && Find(v.plugins, id) < |v.plugins|
    ensures var own := v.plugins[Find(v.plugins, id)].lib;
            Accounts(Unload(v, id)) <==> own.Some? && Handle(v, id) == own
    ensures Unload(v, id).plugins == Without(v.plugins, Find(v.plugins, id))
  {
    hide Libs;
    var i := Find(v.plugins, id);
    var own, rest := v.plugins[i], Libs(Without(v.plugins, i));
    LibsWithout(v.plugins, i);
    SumSwap(rest, v.leaked, LibOf(own));
    SumSwap(rest, LibOf(own), v.leaked);
    SumAssoc(rest, LibOf(own), v.leaked);
    assert v.refs == (rest + v.leaked) + LibOf(own);
    var handle := Handle(v, id);
    if handle.Some? && handle.value in v.refs {
      TakeOne(rest + v.leaked, LibOf(own), handle.value);
    }
  }

  lemma ReloadAccounts(v: View, id: string, path: string, outcome: Outcome)
    requires Accounts(v)
    ensures Accounts(Reload(v, id, path, outcome)) <==> Sound(v, ReloadOp(id, path, outcome))
  {
    if Find(v.plugins, id) < |v.plugins| {
      UnloadAccounts(v, id);
      LoadKeepsAccounts(Unload(v, id), id, path, outcome);
    }
  }

  lemma RemoveKeepsAccounts(v: View, id: string)
    ensures Accounts(Remove(v, id)) <==> Accounts(v)
  {
    hide Libs, LibOf;
    var i := Find(v.plugins, id);
    if i < |v.plugins| {
      var own, rest := LibOf(v.plugins[i]), Libs(Without(v.plugins, i));
      LibsWithout(v.plugins, i);
      SumSwap(rest, own, v.leaked);
      SumAssoc(rest, own, v.leaked);
      SumAssoc(rest, v.leaked, own);
    }
  }

  lemma AddTcpKeepsAccounts(v: View, id: string)
    ensures Accounts(AddTcp(v, id)) <==> Accounts(v)
  {
    hide Libs;
    LibsWith(v.plugins, Entry(id, None));
    assert Libs(v.plugins) + multiset{} == Libs(v.plugins);
  }

  lemma ClearKeepsAccounts(v: View)
    ensures Accounts(Clear(v)) <==> Accounts(v)
  {
    assert Libs([]) == multiset{};
    assert Libs(v.plugins) + v.leaked == multiset{} + (v.leaked + Libs(v.plugins));
  }

  /** An operation keeps the accounts right if and only if it is sound. */
  lemma AccountsStepIff(v: View, op: Op)
    requires Accounts(v)
    ensures Accounts(Apply(v, op)) <==> Sound(v, op)
  {
    hide Accounts;
    match op
    case LoadOp(id, path, outcome) => LoadKeepsAccounts(v, id, path, outcome);
    case AddTcpOp(id) => AddTcpKeepsAccounts(v, id);
    case RemoveOp(id) => RemoveKeepsAccounts(v, id);
    case ReloadOp(id, path, outcome) => ReloadAccounts(v, id, path, outcome);
    case ClearOp => ClearKeepsAccounts(v);
  }

  lemma EmptyAccounts()
    ensures Accounts(EMPTY)
  {
    assert Libs([]) == multiset{};
  }

  /**
    Conservation over every run: after every operation each library is open
    exactly as often as loaded plugins use it plus the times it has leaked, and no
    handle is misused, if and only if every reload is sound.
   */
  lemma LedgerIff(ops: seq<Op>)
    ensures Always(Accounts, EMPTY, ops) <==> EachMeets(Sound, EMPTY, ops)
  {
    hide Apply, Sound, Accounts;
    EmptyAccounts();
    forall v, op | Accounts(v) ensures Accounts(Apply(v, op)) <==> Sound(v, op) {
      AccountsStepIff(v, op);
    }
    RunIff(Accounts, Sound, EMPTY, ops);
  }

  // --- When libraries outlive their plugins ----------------------------------------------

  /** Every library that a loaded plugin uses is open at least once for it. */
  predicate Outlives(v: View) {
    !v.fault && Libs(v.plugins) <= v.refs
  }

  /** A reload is safe when the library it closes is open more often than the others need it. */
  predicate Safe(v: View, op: Op) {
    op.ReloadOp? ==>
      var i := Find(v.plugins, op.id);
      i < |v.plugins| ==>
        && op.outcome == Loaded
        && Handle(v, op.id).Some?
        && var l := Handle(v, op.id).value;
           Libs(Without(v.plugins, i))[l] < v.refs[l]
  }

  lemma LoadOutlives(v: View, id: string, path: string, outcome: Outcome)
    ensures Outlives(v) ==> Outlives(Load(v, id, path, outcome))
    ensures outcome == Loaded ==> (Outlives(Load(v, id, path, outcome)) <==> Outlives(v))
  {
    hide Libs, LibOf;
    LibsWith(v.plugins, Entry(id, Some(path)));
    LibOfLoaded(id, path);
    Cancel(Libs(v.plugins), v.refs, multiset{path});
  }

  lemma WithoutOutlives(v: View, i: nat)
    requires i < |v.plugins|
    ensures Libs(v.plugins) <= v.refs ==> Libs(Without(v.plugins, i)) <= v.refs
  {
    hide Libs, LibOf;
    LibsWithout(v.plugins, i);
  }

  /** What remains open after a close still covers `need`. */
  lemma CoveredAfterClose(need: multiset<string>, refs: multiset<string>, l: string)
    requires need <= refs && l in refs
    ensures need <= refs - multiset{l} <==> need[l] < refs[l]
  {
    if need <= refs - multiset{l} {
      assert need[l] <= (refs - multiset{l})[l];
    } else {
      var x :| need[x] > (refs - multiset{l})[x];
      assert x == l;
    }
  }

  lemma ReloadOutlives(v: View, id: string, path: string, outcome: Outcome)
    requires Outlives(v)
    ensures Outlives(Reload(v, id, path, outcome)) <==> Safe(v, ReloadOp(id, path, outcome))
  {
    hide Libs;
    var i := Find(v.plugins, id);
    if i < |v.plugins| {
      WithoutOutlives(v, i);
      LoadOutlives(Unload(v, id), id, path, outcome);
      var handle := Handle(v, id);
      if handle.Some? && handle.value in v.refs {
        CoveredAfterClose(Libs(Without(v.plugins, i)), v.refs, handle.value);
      }
    }
  }

  lemma RemoveOutlives(v: View, id: string)
    requires Outlives(v)
    ensures Outlives(Remove(v, id))
  {
    var i := Find(v.plugins, id);
    if i < |v.plugins| {
      WithoutOutlives(v, i);
    }
  }

  lemma ClearOutlives(v: View)
    ensures Outlives(v) ==> Outlives(Clear(v))
  {
    assert Libs([]) == multiset{};
  }

  /** An operation leaves every used library open if and only if it is safe. */
  lemma OutlivesStepIff(v: View, op: Op)
    requires Outlives(v)
    ensures Outlives(Apply(v, op)) <==> Safe(v, op)
  {
    hide Safe;
    match op
    case LoadOp(id, path, outcome) =>
      LoadOutlives(v, id, path, outcome);
      NotAReload(v, op);
    case ReloadOp(id, path, outcome) =>
      ReloadOutlives(v, id, path, outcome);
    case AddTcpOp(id) =>
      LibsWith(v.plugins, Entry(id, None));
      NotAReload(v, op);
    case RemoveOp(id) =>
      RemoveOutlives(v, id);
      NotAReload(v, op);
    case ClearOp =>
      ClearOutlives(v);
      NotAReload(v, op);
  }

  lemma ReloadIsExact(v: View, id: string, path: string, outcome: Outcome)
    ensures Accounts(v) ==>
              (Accounts(Reload(v, id, path, outcome)) <==> Sound(v, ReloadOp(id, path, outcome)))
    ensures Outlives(v) ==>
              (Outlives(Reload(v, id, path, outcome)) <==> Safe(v, ReloadOp(id, path, outcome)))
  {
    if Accounts(v) {
      ReloadAccounts(v, id, path, outcome);
    }
    if Outlives(v) {
      ReloadOutlives(v, id, path, outcome);
    }
  }

  lemma NotAReload(v: View, op: Op)
    requires !op.ReloadOp?
    ensures Safe(v, op)
  {
  }

  /**
    Over every run: no library is ever closed under a plugin that uses it and no
    handle is misused, if and only if every reload closes a library that is open
    more often than the remaining plugins need it.
   */
  lemma LibrariesOutlivePlugins(ops: seq<Op>)
    ensures Always(Outlives, EMPTY, ops) <==> EachMeets(Safe, EMPTY, ops)
  {
    hide Apply, Safe, Outlives;
    assert Outlives(EMPTY) by { EmptyOutlives(); }
    forall v, op | Outlives(v) ensures Outlives(Apply(v, op)) <==> Safe(v, op) {
      OutlivesStepIff(v, op);
    }
    RunIff(Outlives, Safe, EMPTY, ops);
  }

  lemma EmptyOutlives()
    ensures Outlives(EMPTY)
  {
    assert Libs([]) == multiset{};
  }

  // --- A rule for callers ---------------------------------------------------------------------

  /** Every plugin with this id that has a library has this one. */
  predicate Agreed(ps: seq<Entry>, id: string, lib: string) {
    forall k | 0 <= k < |ps| && ps[k].id == id && ps[k].lib.Some? :: ps[k].lib.value == lib
  }

  /**
    One library for one id, and reloads only of plugins that have a library and
    can be loaded again.
   */
  predicate Allowed(v: View, op: Op) {
    match op
    case LoadOp(id, path, outcome) => outcome == Loaded ==> Agreed(v.plugins, id, path)
    case ReloadOp(id, path, outcome) =>
      var i := Find(v.plugins, id);
      i < |v.plugins| ==>
        v.plugins[i].lib.Some? && outcome == Loaded && Agreed(Without(v.plugins, i), id, path)
    case _ => true
  }

  /** The handle on record for an id is the library of every plugin with that id. */
  predicate HandlesMatch(ps: seq<Entry>, handles: map<string, Option<string>>) {
    forall k | 0 <= k < |ps| && ps[k].lib.Some? :: ps[k].id in handles && handles[ps[k].id] == ps[k].lib
  }

  predicate Inv(v: View) {
    Accounts(v) && HandlesMatch(v.plugins, v.handles)
  }

  lemma LoadKeepsHandles(v: View, id: string, path: string, outcome: Outcome)
    requires HandlesMatch(v.plugins, v.handles)
    ensures var after := Load(v, id, path, outcome);
            HandlesMatch(after.plugins, after.handles) <==> (outcome == Loaded ==> Agreed(v.plugins, id, path))
  {
    var after := Load(v, id, path, outcome).plugins;
    if outcome == Loaded && !Agreed(v.plugins, id, path) {
      var k :| 0 <= k < |v.plugins| && v.plugins[k].id == id && v.plugins[k].lib.Some?
               && v.plugins[k].lib.value != path;
      assert after[k] == v.plugins[k];
    }
  }

  lemma WithoutKeepsHandles(ps: seq<Entry>, i: nat, handles: map<string, Option<string>>)
    requires i < |ps| && HandlesMatch(ps, handles)
    ensures HandlesMatch(Without(ps, i), handles)
  {
    var rest := Without(ps, i);
    assert forall k | 0 <= k < |rest| :: rest[k] == ps[if k < i then k else k + 1];
  }

  /** In the middle of a reload every library that another plugin uses is still open for it. */
  lemma UnloadKeepsInv(v: View, id: string)
    requires Inv(v)
    requires var i := Find(v.plugins, id); i < |v.plugins| && v.plugins[i].lib.Some?
    ensures Inv(Unload(v, id))
    ensures Unload(v, id).plugins == Without(v.plugins, Find(v.plugins, id))
  {
    hide Accounts;
    UnloadAccounts(v, id);
    WithoutKeepsHandles(v.plugins, Find(v.plugins, id), v.handles);
    assert v.handles[id := Handle(v, id)] == v.handles;
  }

  /** An operation keeps accounts and handles right if and only if it is allowed. */
  lemma InvStepIff(v: View, op: Op)
    requires Inv(v)
    ensures Inv(Apply(v, op)) <==> Allowed(v, op)
  {
    hide Accounts, Sound, HandlesMatch;
    AccountsStepIff(v, op);
    match op
    case LoadOp(id, path, outcome) =>
      LoadKeepsAccounts(v, id, path, outcome);
      LoadKeepsHandles(v, id, path, outcome);
    case AddTcpOp(id) =>
      AddTcpKeepsAccounts(v, id);
      assert HandlesMatch(v.plugins + [Entry(id, None)], v.handles) by { TcpKeepsHandles(v, id); }
    case RemoveOp(id) =>
      RemoveKeepsAccounts(v, id);
      if Find(v.plugins, id) < |v.plugins| {
        WithoutKeepsHandles(v.plugins, Find(v.plugins, id), v.handles);
      }
    case ReloadOp(id, path, outcome) => ReloadKeepsInv(v, id, path, outcome);
    case ClearOp =>
      ClearKeepsAccounts(v);
      assert HandlesMatch([], v.handles) by { NoHandles(v.handles); }
  }

  lemma TcpKeepsHandles(v: View, id: string)
    requires HandlesMatch(v.plugins, v.handles)
    ensures HandlesMatch(v.plugins + [Entry(id, None)], v.handles)
  {
  }

  lemma NoHandles(handles: map<string, Option<string>>)
    ensures HandlesMatch([], handles)
  {
  }

  lemma ReloadKeepsInv(v: View, id: string, path: string, outcome: Outcome)
    requires Inv(v)
    ensures Inv(Reload(v, id, path, outcome)) <==> Allowed(v, ReloadOp(id, path, outcome))
  {
    hide Accounts;
    var i := Find(v.plugins, id);
    ReloadAccounts(v, id, path, outcome);
    if i < |v.plugins| && outcome == Loaded && v.plugins[i].lib.Some? {
      hide Load;
      UnloadKeepsInv(v, id);
      LoadKeepsAccounts(Unload(v, id), id, path, outcome);
      LoadKeepsHandles(Unload(v, id), id, path, outcome);
    }
  }

  lemma AllowedIsSound(v: View, op: Op)
    requires Inv(v) && Allowed(v, op)
    ensures Sound(v, op)
  {
  }

  lemma SoundIsSafe(v: View, op: Op)
    requires Accounts(v) && Sound(v, op)
    ensures Safe(v, op)
  {
    hide Libs;
    if op.ReloadOp? && Find(v.plugins, op.id) < |v.plugins| {
      LibsWithout(v.plugins, Find(v.plugins, op.id));
    }
  }

  /**
    A rule that a caller can observe without the loader's counts: a run in which
    every id has one library, and only plugins with a library are reloaded and
    come back, keeps the accounts, and keeps every used library open.
   */
  lemma AllowedRunsAreSound(ops: seq<Op>)
    requires EachMeets(Allowed, EMPTY, ops)
    ensures Always(Accounts, EMPTY, ops) && Always(Outlives, EMPTY, ops)
  {
    hide Apply, Sound, Safe, Allowed, Inv, Accounts, Outlives;
    assert Accounts(EMPTY) && Inv(EMPTY) by { EmptyInv(); }
    forall v, op | Inv(v) && Allowed(v, op) ensures Inv(Apply(v, op)) && Sound(v, op) {
      InvStepIff(v, op);
      AllowedIsSound(v, op);
    }
    StricterRule(Inv, Allowed, Sound, EMPTY, ops);
    LedgerIff(ops);
    forall v, op | Accounts(v) && Sound(v, op) ensures Accounts(Apply(v, op)) && Safe(v, op) {
      AccountsStepIff(v, op);
      SoundIsSafe(v, op);
    }
    StricterRule(Accounts, Sound, Safe, EMPTY, ops);
    LibrariesOutlivePlugins(ops);
  }

  lemma EmptyInv()
    ensures Accounts(EMPTY) && Inv(EMPTY)
  {
    EmptyAccounts();
  }

  /**
    What happens otherwise: one id for two libraries, and a reload closes the one
    that is still in use, whatever path the configuration has for the id by then.
   */
  lemma SharedIdClosesWrongLibrary(id: string, a: string, b: string, path: string)
    requires a != b
    ensures var v := Exec(EMPTY, [LoadOp(id, a, Loaded), LoadOp(id, b, Loaded), ReloadOp(id, path, Loaded)]);
            !v.fault && Libs(v.plugins)[b] == v.refs[b] + 1
  {
    hide Exec, Libs, Apply;
    ThreeOps(EMPTY, LoadOp(id, a, Loaded), LoadOp(id, b, Loaded), ReloadOp(id, path, Loaded));
    LoadTwice(id, a, b);
    ReloadFirst(id, a, b, path);
    TwoLibs(Entry(id, Some(b)), Entry(id, Some(path)));
  }

  /** One id for two libraries. */
  function Shared(id: string, a: string, b: string): View {
    View([Entry(id, Some(a)), Entry(id, Some(b))], map[id := Some(b)], multiset{a, b}, multiset{}, false)
  }

  lemma LoadTwice(id: string, a: string, b: string)
    ensures Apply(Apply(EMPTY, LoadOp(id, a, Loaded)), LoadOp(id, b, Loaded)) == Shared(id, a, b)
  {
    assert [] + [Entry(id, Some(a))] == [Entry(id, Some(a))];
  }

  lemma ReloadFirst(id: string, a: string, b: string, path: string)
    requires a != b
    ensures var v := Apply(Shared(id, a, b), ReloadOp(id, path, Loaded));
            && !v.fault && v.refs == multiset{a, path}
            && v.plugins == [Entry(id, Some(b)), Entry(id, Some(path))]
  {
    var v := Shared(id, a, b);
    assert v.plugins[0].id == id;
    assert Unload(v, id).plugins == [Entry(id, Some(b))] && Unload(v, id).refs == multiset{a};
  }

  lemma TwoLibs(d: Entry, e: Entry)
    ensures Libs([d, e]) == LibOf(d) + LibOf(e)
  {
    assert [d] + [e] == [d, e];
    LibsWith([d], e);
    SumOne(LibOf, d);
  }

  /** A reload of a plugin for whose id no library is on record closes a null handle. */
  lemma ReloadWithoutHandleFaults(v: View, id: string, path: string, outcome: Outcome)
    requires Find(v.plugins, id) < |v.plugins| && Handle(v, id).None?
    ensures Reload(v, id, path, outcome).fault
  {
  }

  /** So does every reload of a plugin that is connected over TCP, whatever it would load. */
  lemma TcpReloadFaults(id: string, path: string, outcome: Outcome)
    ensures Exec(EMPTY, [AddTcpOp(id), ReloadOp(id, path, outcome)]).fault
  {
    hide Load;
    var add, reload := AddTcpOp(id), ReloadOp(id, path, outcome);
    var v := Apply(EMPTY, add);
    assert v.plugins == [Entry(id, None)] && v.plugins[0].id == id;
    ReloadWithoutHandleFaults(v, id, path, outcome);
    assert [add, reload][1..] == [reload] && [reload][1..] == [];
    assert Exec(v, [reload]) == Apply(v, reload);
  }

  lemma ThreeOps(v: View, a: Op, b: Op, c: Op)
    ensures Exec(v, [a, b, c]) == Apply(Apply(Apply(v, a), b), c)
  {
    hide Apply;
    assert [a, b, c][1..] == [b, c] && [b, c][1..] == [c] && [c][1..] == [];
    assert Exec(Apply(Apply(v, a), b), [c]) == Apply(Apply(Apply(v, a), b), c);
  }

  /** A reload keeps the ids and the order of the others and puts the plugin last. */
  lemma ReloadMovesToTheEnd(v: View, id: string, path: string)
    requires Find(v.plugins, id) < |v.plugins|
    ensures var after := Reload(v, id, path, Loaded).plugins;
            && after == Without(v.plugins, Find(v.plugins, id)) + [Entry(id, Some(path))]
            && Ids(after) == Ids(v.plugins)
  {
    var i := Find(v.plugins, id);
    var e := Entry(id, Some(path));
    assert Unload(v, id).plugins == Without(v.plugins, i);
    SumWithout(IdOf, v.plugins, i);
    SumWith(IdOf, Without(v.plugins, i), e);
  }

  // --- What each operation does, in full -----------------------------------------------------

  /** Position `i` holds the first plugin with the id. */
  predicate IsFirst(ps: seq<Entry>, id: string, i: int) {
    0 <= i < |ps| && ps[i].id == id && forall k | 0 <= k < i :: ps[k].id != id
  }

  predicate NoneHas(ps: seq<Entry>, id: string) {
    forall k | 0 <= k < |ps| :: ps[k].id != id
  }

  lemma FirstIsFound(ps: seq<Entry>, id: string)
    ensures forall i :: IsFirst(ps, id, i) <==> Find(ps, id) == i < |ps|
    ensures NoneHas(ps, id) <==> Find(ps, id) == |ps|
  {
  }

  /** A load that fails early changes nothing; one without an entry point leaves the library open. */
  predicate LoadsAs(v: View, after: View, id: string, path: string, outcome: Outcome) {
    && after.fault == v.fault
    && after.refs == v.refs + (if outcome in {NoSymbol, Loaded} then multiset{path} else multiset{})
    && after.plugins == v.plugins + (if outcome == Loaded then [Entry(id, Some(path))] else [])
    && after.handles == (if outcome == Loaded then v.handles[id := Some(path)] else v.handles)
  }

  lemma LoadInFull(v: View, id: string, path: string, outcome: Outcome)
    ensures LoadsAs(v, Load(v, id, path, outcome), id, path, outcome)
  {
    assert v.plugins + [] == v.plugins;
  }

  /** Only the first plugin with the id goes, and nothing is closed. */
  ghost predicate RemovesFirst(v: View, after: View, id: string) {
    && after.refs == v.refs && after.handles == v.handles && after.fault == v.fault
    && (NoneHas(v.plugins, id) ==> after == v)
    && (forall i | IsFirst(v.plugins, id, i) :: after.plugins == v.plugins[..i] + v.plugins[i + 1..])
  }

  lemma RemoveInFull(v: View, id: string)
    ensures RemovesFirst(v, Remove(v, id), id)
  {
    FirstIsFound(v.plugins, id);
  }

  /** The library that a reload closes, if there is one on record and open. */
  function Closable(v: View, id: string): multiset<string> {
    if id in v.handles && v.handles[id].Some? && v.handles[id].value in v.refs
    then multiset{v.handles[id].value} else multiset{}
  }

  /**
    A reload of an id that no plugin has changes nothing.  Otherwise the first
    plugin with the id goes, the library on record is closed once, and a new
    plugin is appended if it can be loaded; to close nothing, or to use a plugin
    that was not loaded, is a fault.
   */
  ghost predicate ReloadsAs(v: View, after: View, id: string, path: string, outcome: Outcome) {
    && (NoneHas(v.plugins, id) ==> after == v)
    && (forall i | IsFirst(v.plugins, id, i) ::
          && after.plugins == (v.plugins[..i] + v.plugins[i + 1..])
                              + (if outcome == Loaded then [Entry(id, Some(path))] else [])
          && after.refs == (v.refs - Closable(v, id))
                           + (if outcome in {NoSymbol, Loaded} then multiset{path} else multiset{})
          && after.handles == v.handles[id := if outcome == Loaded then Some(path)
                                              else if id in v.handles then v.handles[id] else None]
          && after.fault == (v.fault || Closable(v, id) == multiset{} || outcome != Loaded))
  }

  lemma ReloadInFull(v: View, id: string, path: string, outcome: Outcome)
    ensures ReloadsAs(v, Reload(v, id, path, outcome), id, path, outcome)
  {
    hide Load, Unload, Find, IsFirst, NoneHas, Closable;
    var i := Find(v.plugins, id);
    FirstIsFound(v.plugins, id);
    if i < |v.plugins| {
      UnloadInFull(v, id);
      LoadInFull(Unload(v, id), id, path, outcome);
      assert v.handles[id := if id in v.handles then v.handles[id] else None][id := Some(path)]
          == v.handles[id := Some(path)];
    }
  }

  lemma CloseInFull(v: View, id: string)
    ensures var after := Close(v, Handle(v, id));
            && after.plugins == v.plugins && after.handles == v.handles
            && after.refs == v.refs - Closable(v, id)
            && after.fault == (v.fault || Closable(v, id) == multiset{})
  {
    assert v.refs - multiset{} == v.refs;
  }

  lemma UnloadInFull(v: View, id: string)
    requires Find(v.plugins, id) < |v.plugins|
    ensures var i, after := Find(v.plugins, id), Unload(v, id);
            && after.plugins == v.plugins[..i] + v.plugins[i + 1..]
            && after.refs == v.refs - Closable(v, id)
            && after.handles == v.handles[id := if id in v.handles then v.handles[id] else None]
            && after.fault == (v.fault || Closable(v, id) == multiset{})
  {
    hide Close, Find;
    var i := Find(v.plugins, id);
    var erased := v.(plugins := Without(v.plugins, i), handles := v.handles[id := Handle(v, id)]);
    assert Handle(erased, id) == Handle(v, id) && Closable(erased, id) == Closable(v, id);
    hide Closable;
    CloseInFull(erased, id);
  }

  // --- The program ---------------------------------------------------------------------------

  class Core {
    var plugins: seq<Entry>
    var handles: map<string, Option<string>>
    ghost var refs: multiset<string>      // the dynamic loader's state
    ghost var leaked: multiset<string>
    ghost var fault: bool

    ghost function Abstract(): View
      reads this
    {
      View(plugins, handles, refs, leaked, fault)
    }

    constructor ()
      ensures Abstract() == EMPTY
    {
      plugins, handles, refs, leaked, fault := [], map[], multiset{}, multiset{}, false;
    }

    method FindPlugin(id: string) returns (i: nat)
      ensures i == Find(plugins, id)
    {
      i := 0;
      while i < |plugins| && plugins[i].id != id
        invariant i <= |plugins|
        invariant Find(plugins, id) == i + Find(plugins[i..], id)
      {
        assert plugins[i..][1..] == plugins[i + 1..];
        i := i + 1;
      }
    }

    method AddPlugin(e: Entry)
      modifies this`plugins
      ensures plugins == old(plugins) + [e]
    {
      plugins := plugins + [e];
    }

    method LoadPlugin(id: string, path: string, outcome: Outcome)
      modifies this
      ensures Abstract() == Load(old(Abstract()), id, path, outcome)
      ensures LoadsAs(old(Abstract()), Abstract(), id, path, outcome)
      ensures Accounts(old(Abstract())) ==> Accounts(Abstract())
      ensures Outlives(old(Abstract())) ==> Outlives(Abstract())
    {
      LoadInFull(Abstract(), id, path, outcome);
      LoadKeepsAccounts(Abstract(), id, path, outcome);
      LoadOutlives(Abstract(), id, path, outcome);
      hide Libs, LibOf, Accounts, Outlives, LoadsAs;
      if outcome == Rejected || outcome == OpenFailed {
        return;
      }
      refs := refs + multiset{path};
      if outcome == NoSymbol {
        leaked := leaked + multiset{path};
        return;
      }
      handles := handles[id := Some(path)];
      AddPlugin(Entry(id, Some(path)));
    }

    method RemovePlugin(id: string)
      modifies this
      ensures Abstract() == Remove(old(Abstract()), id)
      ensures RemovesFirst(old(Abstract()), Abstract(), id)
      ensures Accounts(old(Abstract())) ==> Accounts(Abstract())
      ensures Outlives(old(Abstract())) ==> Outlives(Abstract())
    {
      RemoveInFull(Abstract(), id);
      RemoveKeepsAccounts(Abstract(), id);
      if Outlives(Abstract()) {
        RemoveOutlives(Abstract(), id);
      }
      hide Libs, LibOf, Accounts, Outlives, RemovesFirst;
      var i := FindPlugin(id);
      if i < |plugins| {
        leaked := leaked + LibOf(plugins[i]);
        Erase(i);
      }
    }

    method Erase(i: nat)
      requires i < |plugins|
      modifies this`plugins
      ensures plugins == Without(old(plugins), i)
    {
      plugins := plugins[..i] + plugins[i + 1..];
    }

    /** The loader closes a library once; closing what is not open is a fault. */
    method CloseLibrary(handle: Option<string>)
      modifies this`refs, this`fault
      ensures Abstract() == Close(old(Abstract()), handle)
    {
      if handle.Some? && handle.value in refs {
        refs := refs - multiset{handle.value};
      } else {
        fault := true;
      }
    }

    /** The map's lookup, which inserts a null handle for a missing id. */
    method HandleFor(id: string) returns (handle: Option<string>)
      modifies this`handles
      ensures handle == Handle(old(Abstract()), id)
      ensures handles == old(handles)[id := handle]
    {
      if id !in handles {
        handles := handles[id := None];
      }
      handle := handles[id];
    }

    method ReloadPlugin(id: string, path: string, outcome: Outcome)
      modifies this
      ensures Abstract() == Reload(old(Abstract()), id, path, outcome)
      ensures ReloadsAs(old(Abstract()), Abstract(), id, path, outcome)
      ensures Accounts(old(Abstract())) ==>
                (Accounts(Abstract()) <==> Sound(old(Abstract()), ReloadOp(id, path, outcome)))
      ensures Outlives(old(Abstract())) ==>
                (Outlives(Abstract()) <==> Safe(old(Abstract()), ReloadOp(id, path, outcome)))
    {
      ghost var before := Abstract();
      ReloadIsExact(before, id, path, outcome);
      ReloadInFull(before, id, path, outcome);
      hide Libs, Load, Find, Close, Accounts, Outlives, Sound, Safe, ReloadsAs, LoadsAs;
      var i := FindPlugin(id);
      if i == |plugins| {
        return;
      }
      var handle := HandleFor(id);
      Erase(i);
      CloseLibrary(handle);
      assert Abstract() == Unload(before, id);
      LoadPlugin(id, path, outcome);
      if outcome != Loaded {
        fault := true;
      }
    }

    method DeinitializePlugins()
      modifies this
      ensures Abstract() == Clear(old(Abstract()))
      ensures plugins == [] && handles == old(handles) && refs == old(refs) && fault == old(fault)
      ensures Accounts(old(Abstract())) ==> Accounts(Abstract())
      ensures Outlives(old(Abstract())) ==> Outlives(Abstract())
    {
      ClearKeepsAccounts(Abstract());
      ClearOutlives(Abstract());
      hide Libs, Accounts, Outlives;
      leaked := leaked + Libs(plugins);
      plugins := [];
    }
  }
}
