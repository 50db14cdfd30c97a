/** The order of the children of a task in the list of one priority, on values
    (priority_queue.h:236-286, task.c:807-854 and 895-940, and the check of priority_queue.c:95-124).

  WAITING tasks come before TIED ones, and of the WAITING tasks those that their parent waits for
  come first; last_parent_depends_on is the last of these.  `PriorityList` relinks such a list in
  memory.
 */
module PriorityOrder {
  import opened Collections

  /** A task as the list sees it: its kind and parent_depends_on. */
  datatype Item = Item(waiting: bool, awaited: bool)

  /** The tasks from the head on, and the position of last_parent_depends_on, or -1. */
  datatype View = View(items: seq<Item>, last: int)

  function Rank(x: Item): nat {
    if !x.waiting then 2 else if x.awaited then 0 else 1
  }

  /** WAITING tasks come before TIED ones. */
  ghost predicate WaitingFirst(s: seq<Item>) {
    forall i, j :: 0 <= i < j < |s| && s[j].waiting ==> s[i].waiting
  }

  /** What priority_list_verify checks. */
  ghost predicate Ranked(s: seq<Item>) {
    forall i, j :: 0 <= i < j < |s| ==> Rank(s[i]) <= Rank(s[j])
  }

  /** What always holds. */
  ghost predicate Sane(v: View) {
    && -1 <= v.last < |v.items| && WaitingFirst(v.items)
    && (v.last >= 0 ==> Rank(v.items[v.last]) == 0)
  }

  /** What should hold: the awaited tasks are those up to last. */
  ghost predicate Good(v: View) {
    && -1 <= v.last < |v.items| && Ranked(v.items)
    && (forall i | 0 <= i < |v.items| :: Rank(v.items[i]) == 0 <==> i <= v.last)
  }

  ghost predicate NobodyAwaited(v: View) {
    forall i | 0 <= i < |v.items| :: Rank(v.items[i]) != 0
  }

  // ---------------------------------------------------------------- what the operations do

  /** priority_list_insert. */
  function Place(v: View, x: Item, begin: bool, adjust: bool): int {
    if !begin then |v.items| else if adjust && v.last >= 0 && !x.awaited then v.last + 1 else 0
  }

  function Inserted(v: View, x: Item, begin: bool, adjust: bool): View
    requires -1 <= v.last < |v.items|
  {
    var at := Place(v, x, begin, adjust);
    View(v.items[..at] + [x] + v.items[at..],
         if adjust && v.last < 0 && x.awaited then at else if v.last >= at then v.last + 1 else v.last)
  }

  /** Whether priority_list_downgrade_task moves the task at i to the end. */
  predicate Moves(s: seq<Item>, i: nat) {
    i == 0 || (i + 1 < |s| && s[i + 1].waiting)
  }

  /** And where the task at k is then. */
  function PlaceAfter(s: seq<Item>, i: nat, k: int): int {
    if Moves(s, i) then (if k == i then |s| - 1 else if k > i then k - 1 else k) else k
  }

  /** The neighbours along the circle. */
  function After(n: nat, i: nat): nat
    requires i < n
  {
    if i + 1 == n then 0 else i + 1
  }

  function Before(n: nat, i: nat): nat
    requires i < n
  {
    if i == 0 then n - 1 else i - 1
  }

  function Reordered(s: seq<Item>, i: nat): seq<Item>
    requires i < |s|
  {
    if Moves(s, i) then Without(s, i) + [s[i]] else s
  }

  /** priority_list_downgrade_task. */
  function Downgraded(v: View, i: nat): View
    requires i < |v.items|
  {
    var s, at := Reordered(v.items, i), PlaceAfter(v.items, i, i);
    var before := Before(|s|, at);
    View(s,
         if v.items[i].awaited && v.last == i then (if before != at && Rank(s[before]) == 0 then before else -1)
         else PlaceAfter(v.items, i, v.last))
  }

  /** gomp_task_run_pre: the task that runs becomes TIED. */
  function Started(v: View, i: nat): View
    requires i < |v.items|
  {
    var d, at := Downgraded(v, i), PlaceAfter(v.items, i, i);
    View(d.items[at := d.items[at].(waiting := false)], d.last)
  }

  /** priority_list_upgrade_task, for a task behind last. */
  function Upgraded(v: View, i: nat): View
    requires -1 <= v.last < i < |v.items|
  {
    var r := Without(v.items, i);
    View(r[..v.last + 1] + [v.items[i]] + r[v.last + 1..], v.last + 1)
  }

  /** The parent begins to wait for the task at i, which is moved to the others if it is WAITING. */
  function Awaited(v: View, i: nat): View
    requires -1 <= v.last < i < |v.items| || (i < |v.items| && !v.items[i].waiting)
  {
    var w := v.(items := v.items[i := v.items[i].(awaited := true)]);
    if v.items[i].waiting then Upgraded(w, i) else w
  }

  /** priority_list_remove. */
  function Removed(v: View, i: nat): View
    requires i < |v.items|
  {
    View(Without(v.items, i), if i < v.last then v.last - 1 else v.last)
  }

  // ---------------------------------------------------------------- histories

  /** What happens to the children of a task: the parent creates one, another one becomes free to
      run, one starts, one has finished, the parent begins to wait for some. */
  datatype Op =
    | Create
    | Release(awaited: bool)
    | Start(i: nat)
    | Finish(i: nat)
    | Wait(tasks: seq<nat>)

  /** Where the tasks are after an upgrade. */
  lemma UpgradedAt(v: View, i: nat, k: nat)
    requires -1 <= v.last < i < |v.items| && k < |v.items|
    ensures var r := Upgraded(v, i).items;
      && |r| == |v.items|
      && r[k] == v.items[if k <= v.last || k > i then k else if k == v.last + 1 then i else k - 1]
  {
  }

  lemma AwaitedKeepsGood(v: View, i: nat)
    requires Good(v) && i < |v.items| && !v.items[i].awaited
    ensures v.items[i].waiting ==> v.last < i
    ensures Good(Awaited(v, i))
  {
    if v.items[i].waiting {
      var w := v.(items := v.items[i := v.items[i].(awaited := true)]);
      assert Rank(v.items[i]) == 1;
      forall k: nat | k < |v.items|
        ensures var r := Upgraded(w, i).items;
          && |r| == |v.items|
          && r[k] == w.items[if k <= v.last || k > i then k else if k == v.last + 1 then i else k - 1]
      {
        UpgradedAt(w, i, k);
      }
      assert Awaited(v, i) == Upgraded(w, i) && Upgraded(w, i).last == v.last + 1;
      hide Upgraded, Awaited;
    }
  }

  /** The tasks, each at its position when its turn comes, are not awaited yet. */
  ghost predicate MayAwait(v: View, tasks: seq<nat>)
    requires Good(v)
    decreases tasks
  {
    tasks == [] || (
      && tasks[0] < |v.items| && !v.items[tasks[0]].awaited
      && (AwaitedKeepsGood(v, tasks[0]); MayAwait(Awaited(v, tasks[0]), tasks[1..])))
  }

  /** The loop of gomp_task_maybe_wait_for_dependencies. */
  ghost function AllAwaited(v: View, tasks: seq<nat>): (r: View)
    requires Good(v) && MayAwait(v, tasks)
    ensures Good(r)
    decreases tasks
  {
    if tasks == [] then v
    else
      AwaitedKeepsGood(v, tasks[0]);
      AllAwaited(Awaited(v, tasks[0]), tasks[1..])
  }

  lemma NobodyIsGood(v: View)
    requires Sane(v) && NobodyAwaited(v)
    ensures Good(v)
  {
  }

  /** The parent only goes on when none of its children is awaited any more. */
  ghost predicate Legal(v: View, op: Op)
    requires Sane(v)
  {
    match op
    case Create => NobodyAwaited(v)
    case Release(_) => true
    case Start(i) => i < |v.items| && v.items[i].waiting
    case Finish(i) => i < |v.items| && !v.items[i].waiting
    case Wait(tasks) => NobodyAwaited(v) && (NobodyIsGood(v); MayAwait(v, tasks))
  }

  ghost function Apply(v: View, op: Op): View
    requires Sane(v) && Legal(v, op)
  {
    match op
    case Create => Inserted(v, Item(true, false), true, false)
    case Release(awaited) => Inserted(v, Item(true, awaited), true, true)
    case Start(i) => Started(v, i)
    case Finish(i) => Removed(v, i)
    case Wait(tasks) => NobodyIsGood(v); AllAwaited(v, tasks)
  }

  /** A start after which last_parent_depends_on is lost: of the last awaited task, when others are
      before it and a WAITING one is behind it. */
  predicate Loses(v: View, op: Op) {
    op.Start? && 0 < op.i == v.last && op.i + 1 < |v.items| && v.items[op.i + 1].waiting
  }

  // ---------------------------------------------------------------- one operation

  /** No operation puts a WAITING task behind a TIED one, or leaves last at a task that is not an
      awaited WAITING one. */
  lemma ApplyKeepsSane(v: View, op: Op)
    requires Sane(v) && Legal(v, op)
    ensures Sane(Apply(v, op))
  {
    match op
    case Start(i) => StartKeepsSane(v, i);
    case _ =>
  }

  lemma StartKeepsSane(v: View, i: nat)
    requires Sane(v) && i < |v.items| && v.items[i].waiting
    ensures Sane(Started(v, i))
  {
  }

  /** From a good list, every operation gives a good one, but for a start that loses the last. */
  lemma ApplyKeepsGood(v: View, op: Op)
    requires Sane(v) && Good(v) && Legal(v, op)
    ensures Good(Apply(v, op)) <==> !Loses(v, op)
  {
    match op
    case Create => InsertKeepsGood(v, Item(true, false), false);
    case Release(awaited) => InsertKeepsGood(v, Item(true, awaited), true);
    case Start(i) => StartKeepsGood(v, i);
    case Finish(i) => FinishKeepsGood(v, i);
    case Wait(_) =>
  }

  lemma InsertKeepsGood(v: View, x: Item, adjust: bool)
    requires Good(v) && x.waiting && (adjust || (NobodyAwaited(v) && !x.awaited))
    ensures Good(Inserted(v, x, true, adjust))
  {
    var at := Place(v, x, true, adjust);
    var r := Inserted(v, x, true, adjust);
    assert forall k: nat | k < |r.items| :: r.items[k] == if k < at then v.items[k] else if k == at then x else v.items[k - 1];
    assert v.last >= 0 ==> Rank(v.items[v.last]) == 0;
    hide Inserted;
  }

  lemma FinishKeepsGood(v: View, i: nat)
    requires Good(v) && i < |v.items| && !v.items[i].waiting
    ensures Good(Removed(v, i))
  {
    var r := Removed(v, i);
    assert forall k: nat | k < |r.items| :: r.items[k] == v.items[if k < i then k else k + 1];
    hide Removed;
  }

  /** Where the tasks are after a start. */
  lemma StartedAt(v: View, i: nat, k: nat)
    requires i < |v.items| && k < |v.items|
    ensures var r := Started(v, i).items;
      && |r| == |v.items|
      && r[k] == if k == PlaceAfter(v.items, i, i) then v.items[i].(waiting := false)
                 else v.items[if Moves(v.items, i) && k >= i then k + 1 else k]
  {
  }

  lemma StartKeepsRanked(v: View, i: nat)
    requires Ranked(v.items) && i < |v.items| && v.items[i].waiting
    ensures Ranked(Started(v, i).items)
  {
    var s, r := v.items, Started(v, i).items;
    forall j, k | 0 <= j < k < |s| ensures |r| == |s| && Rank(r[j]) <= Rank(r[k]) {
      StartedAt(v, i, j);
      StartedAt(v, i, k);
    }
    assert |r| == |s| by { StartedAt(v, i, i); }
  }

  /** last after the start of last itself. */
  lemma LastStarted(v: View, i: nat)
    requires Good(v) && i < |v.items| && v.last == i
    ensures Started(v, i).last == if Moves(v.items, i) then -1 else i - 1
  {
    var s, n := Reordered(v.items, i), |v.items|;
    assert |s| == n;
    if i > 0 && Moves(v.items, i) {
      assert s[n - 2] == v.items[n - 1];
    }
    if i == 0 && n > 1 {
      assert s[n - 2] == v.items[n - 1];
    }
  }

  lemma StartKeepsGood(v: View, i: nat)
    requires Good(v) && i < |v.items| && v.items[i].waiting
    ensures Good(Started(v, i)) <==> !Loses(v, Start(i))
    ensures Ranked(Started(v, i).items)
  {
    StartKeepsRanked(v, i);
    if v.last == i { LastStarted(v, i); }
    forall k: nat | k < |v.items|
      ensures var r := Started(v, i).items;
        && |r| == |v.items|
        && r[k] == if k == PlaceAfter(v.items, i, i) then v.items[i].(waiting := false)
                   else v.items[if Moves(v.items, i) && k >= i then k + 1 else k]
    {
      StartedAt(v, i, k);
    }
    assert v.last != i ==> Started(v, i).last == if Moves(v.items, i) && v.last > i then v.last - 1 else v.last;
    hide Started;
    if Loses(v, Start(i)) {
      assert Rank(Started(v, i).items[0]) == 0;
    }
  }

  // ---------------------------------------------------------------- whole histories

  ghost predicate IsHistory(v: View, ops: seq<Op>)
    requires Sane(v)
    decreases ops
  {
    ops == [] || (Legal(v, ops[0]) && (ApplyKeepsSane(v, ops[0]); IsHistory(Apply(v, ops[0]), ops[1..])))
  }

  /** Along the history the list is always good. */
  ghost predicate AlwaysGood(v: View, ops: seq<Op>)
    requires Sane(v) && IsHistory(v, ops)
    decreases ops
  {
    Good(v) && (ops == [] || (ApplyKeepsSane(v, ops[0]); AlwaysGood(Apply(v, ops[0]), ops[1..])))
  }

  /** No start along the history loses the last. */
  ghost predicate NeverLoses(v: View, ops: seq<Op>)
    requires Sane(v) && IsHistory(v, ops)
    decreases ops
  {
    ops == [] || (!Loses(v, ops[0]) && (ApplyKeepsSane(v, ops[0]); NeverLoses(Apply(v, ops[0]), ops[1..])))
  }

  ghost function Outcome(v: View, ops: seq<Op>): (r: View)
    requires Sane(v) && IsHistory(v, ops)
    ensures Sane(r)
    decreases ops
  {
    if ops == [] then v else
      ApplyKeepsSane(v, ops[0]);
      Outcome(Apply(v, ops[0]), ops[1..])
  }

  /** Over every history, awaited tasks come first all along, with last at the last of them, if and
      only if no start loses it. */
  lemma {:induction false} OrderIsKept(v: View, ops: seq<Op>)
    requires Sane(v) && Good(v) && IsHistory(v, ops)
    ensures AlwaysGood(v, ops) <==> NeverLoses(v, ops)
    decreases ops
  {
    if ops != [] {
      ApplyKeepsSane(v, ops[0]);
      ApplyKeepsGood(v, ops[0]);
      if Good(Apply(v, ops[0])) { OrderIsKept(Apply(v, ops[0]), ops[1..]); }
    }
  }

  /** WAITING tasks come before TIED ones in any case, so looking at the head suffices. */
  lemma HeadSuffices(v: View, ops: seq<Op>)
    requires Sane(v) && IsHistory(v, ops)
    ensures var s := Outcome(v, ops).items;
      s != [] ==> (s[0].waiting <==> exists i :: 0 <= i < |s| && s[i].waiting)
  {
    var s := Outcome(v, ops).items;
    if i :| 0 <= i < |s| && s[i].waiting {
      assert i > 0 ==> s[0].waiting;
    }
  }

  /** After such a start, the next task that becomes free and is not awaited goes before an awaited
      one. */
  lemma LosingMisorders(v: View, i: nat)
    requires Sane(v) && Good(v) && Legal(v, Start(i)) && Loses(v, Start(i))
    ensures Sane(Apply(v, Start(i))) && !Ranked(Apply(Apply(v, Start(i)), Release(false)).items)
  {
    ApplyKeepsSane(v, Start(i));
    LastStarted(v, i);
    StartedAt(v, i, 0);
    var w := Started(v, i);
    var r := Inserted(w, Item(true, false), true, true).items;
    assert r[0] == Item(true, false) && r[1] == w.items[0];
  }

  lemma OneOp(v: View, op: Op, w: View, rest: seq<Op>)
    requires Sane(v) && Legal(v, op) && Apply(v, op) == w && Sane(w) && IsHistory(w, rest)
    ensures IsHistory(v, [op] + rest) && Outcome(v, [op] + rest) == Outcome(w, rest)
  {
    assert ([op] + rest)[1..] == rest;
  }

  /** A task waits for two of its three children; another thread runs the second of these first, and
      then a task becomes free. */
  lemma AwaitedComesSecond()
    ensures var c := Item(true, false);
      var v, ops := View([c, c, c], -1), [Wait([1, 2])] + ([Start(1)] + ([Release(false)] + []));
      && Sane(v) && Good(v) && IsHistory(v, ops)
      && Outcome(v, ops).items == [c, Item(true, true), c, Item(false, true)]
  {
    var c, a, t := Item(true, false), Item(true, true), Item(false, true);
    var v, w, x, y := View([c, c, c], -1), View([a, a, c], 1), View([a, c, t], -1), View([c, a, c, t], -1);
    TwoAwaited();
    SecondStarted();
    OneOp(x, Release(false), y, []);
    OneOp(w, Start(1), x, [Release(false)] + []);
    OneOp(v, Wait([1, 2]), w, [Start(1)] + ([Release(false)] + []));
  }

  lemma TwoAwaited()
    ensures var c, a := Item(true, false), Item(true, true);
      var v := View([c, c, c], -1);
      && Good(v) && MayAwait(v, [1, 2]) && AllAwaited(v, [1, 2]) == View([a, a, c], 1)
  {
    var c, a := Item(true, false), Item(true, true);
    var v, w := View([c, c, c], -1), View([a, c, c], 0);
    assert Awaited(v, 1) == w && Awaited(w, 2) == View([a, a, c], 1);
    assert [1, 2][1..] == [2] && [2][1..] == [];
    assert Good(w) && MayAwait(w, [2]);
  }

  lemma SecondStarted()
    ensures var c, a, t := Item(true, false), Item(true, true), Item(false, true);
      && Started(View([a, a, c], 1), 1) == View([a, c, t], -1)
      && Inserted(View([a, c, t], -1), c, true, true) == View([c, a, c, t], -1)
  {
  }
}
