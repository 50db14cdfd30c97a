/** The chain of depend entries for one address (task.c:194-281 and 1021-1047).

  A chain lists live entries first, newest at the head, and behind them the entries marked
  redundant_out.
 */
module DependChain {
  import opened Options
  import opened TaskGraph

  datatype Entry = Entry(task: Task, isIn: bool, redundantOut: bool)

  type Chain = seq<Entry>

  /** What a chain means. */
  function Meaning(c: Chain): Uses {
    if c == [] then NoUses
    else
      var rest := Meaning(c[1..]);
      if c[0].redundantOut then rest.(hidden := rest.hidden + {c[0].task})
      else if c[0].isIn then rest.(readers := rest.readers + {c[0].task})
      else rest.(writer := Some(c[0].task))
  }

  /** Live entries, of which at most one writes; then redundant ones, which all write. */
  ghost predicate ChainOk(c: Chain) {
    && (forall i, j :: 0 <= i < j < |c| && c[i].redundantOut ==> c[j].redundantOut)
    && (forall i, j :: 0 <= i < j < |c| ==> c[i].task != c[j].task)
    && (forall i, j :: 0 <= i < j < |c| && !c[j].redundantOut ==> c[i].isIn || c[j].isIn)
  }

  function Join(m: Uses, n: Uses): Uses {
    Uses(m.readers + n.readers, if m.writer.Some? then m.writer else n.writer, m.hidden + n.hidden)
  }

  lemma {:induction false} MeaningOfConcat(c: Chain, d: Chain)
    ensures Meaning(c + d) == Join(Meaning(c), Meaning(d))
  {
    if c == [] {
      assert c + d == d;
    } else {
      assert (c + d)[1..] == c[1..] + d;
      MeaningOfConcat(c[1..], d);
    }
  }

  function TasksOf(c: Chain): set<Task> {
    set i | 0 <= i < |c| :: c[i].task
  }

  /** No entry of the chain writes and is live. */
  ghost predicate NoWriter(c: Chain) {
    forall i | 0 <= i < |c| :: c[i].redundantOut || c[i].isIn
  }

  lemma {:induction false} MeaningWriter(c: Chain)
    ensures Meaning(c).writer == None <==> NoWriter(c)
  {
    if c != [] {
      MeaningWriter(c[1..]);
      assert forall i | 1 <= i < |c| :: c[i] == c[1..][i - 1];
      assert forall i | 0 <= i < |c| - 1 :: c[1..][i] == c[i + 1];
    }
  }

  lemma {:induction false} MeaningTasks(c: Chain)
    requires ChainOk(c)
    ensures Meaning(c).Tasks() == TasksOf(c)
  {
    if c != [] {
      var d := c[1..];
      assert forall i | 1 <= i < |c| :: c[i] == d[i - 1];
      assert forall i | 0 <= i < |d| :: d[i] == c[i + 1];
      MeaningTasks(d);
      MeaningWriter(d);
      assert TasksOf(c) == {c[0].task} + TasksOf(d);
    }
  }

  /** n counts the live entries of c, and k is the position of the one that writes, or -1. */
  ghost predicate Located(c: Chain, n: nat, k: int) {
    LocatedSoFar(c, n, k) && (n < |c| ==> c[n].redundantOut)
  }

  ghost predicate LocatedSoFar(c: Chain, n: nat, k: int) {
    && n <= |c| && (-1 == k || 0 <= k < n)
    && (forall i | 0 <= i < n :: !c[i].redundantOut && (i != k ==> c[i].isIn))
    && (k >= 0 ==> !c[k].isIn)
  }

  lemma LocateNext(c: Chain, n: nat, k: int)
    requires ChainOk(c) && LocatedSoFar(c, n, k) && n < |c| && !c[n].redundantOut
    ensures LocatedSoFar(c, n + 1, if c[n].isIn then k else n)
  {
    assert !c[n].isIn ==> k < 0;
  }

  /** The live entry at k becomes redundant and moves behind the last live one. */
  function Demoted(c: Chain, n: nat, k: nat): Chain
    requires k < n <= |c|
  {
    c[..k] + c[k + 1..n] + ([c[k].(redundantOut := true)] + c[n..])
  }

  /** The chain with a new entry at its head; if that one writes, the previous live writer is
      marked redundant and moved behind the last live entry. */
  function NewChain(c: Chain, e: Entry, n: nat, k: int): Chain
    requires n <= |c| && (k == -1 || 0 <= k < n)
  {
    if e.isIn || k < 0 then [e] + c
    else [e] + Demoted(c, n, k)
  }

  function MeaningOf(e: Entry): Uses {
    if e.redundantOut then Uses({}, None, {e.task})
    else if e.isIn then Uses({e.task}, None, {})
    else Uses({}, Some(e.task), {})
  }

  lemma MeaningOfOne(e: Entry)
    ensures Meaning([e]) == MeaningOf(e)
  {
    assert [e][1..] == [];
  }

  lemma JoinRemove(m: Uses, e: Entry, n: Uses)
    requires e.task !in m.Tasks() && e.task !in n.Tasks()
    requires !e.redundantOut && !e.isIn ==> m.writer == None && n.writer == None
    ensures Join(m, Join(MeaningOf(e), n)).Remove(e.task) == Join(m, n)
  {
  }

  lemma DemotedMeaning(c: Chain, n: nat, k: nat)
    requires ChainOk(c) && Located(c, n, k)
    ensures Meaning(Demoted(c, n, k)) == Uses(Meaning(c).readers, None, Meaning(c).hidden + {c[k].task})
    ensures Meaning(c).writer == Some(c[k].task)
  {
    hide Meaning;
    var pre, post, red, o := c[..k], c[k + 1..n], c[n..], c[k];
    var o' := o.(redundantOut := true);
    assert Meaning(c) == Meaning(pre + ([o] + (post + red))) by { assert c == pre + ([o] + (post + red)); }
    assert NoWriter(pre) && NoWriter(post) && NoWriter(red);
    hide ChainOk, Located, LocatedSoFar, NoWriter;
    MeaningWriter(pre);
    MeaningWriter(post);
    MeaningWriter(red);
    MeaningOfConcat(pre, [o] + (post + red));
    MeaningOfConcat([o], post + red);
    MeaningOfConcat(post, red);
    MeaningOfConcat(pre + post, [o'] + red);
    MeaningOfConcat(pre, post);
    MeaningOfConcat([o'], red);
    MeaningOfOne(o);
    MeaningOfOne(o');
  }

  lemma NewChainShape(c: Chain, e: Entry, n: nat, k: nat)
    requires Located(c, n, k) && !e.isIn
    ensures var r := NewChain(c, e, n, k);
      && |r| == |c| + 1 && r[0] == e
      && (forall i | 1 <= i <= k :: r[i] == c[i - 1])
      && (forall i | k < i < n :: r[i] == c[i])
      && r[n] == c[k].(redundantOut := true)
      && forall i | n < i < |r| :: r[i] == c[i - 1]
  {
  }

  lemma NewChainOk(c: Chain, e: Entry, n: nat, k: int)
    requires ChainOk(c) && Located(c, n, k) && !e.redundantOut && e.task !in TasksOf(c)
    ensures ChainOk(NewChain(c, e, n, k))
  {
    var r := NewChain(c, e, n, k);
    if !e.isIn && k >= 0 {
      NewChainShape(c, e, n, k);
      hide NewChain;
      forall i, j | 0 <= i < j < |r|
        ensures r[i].redundantOut ==> r[j].redundantOut
        ensures r[i].task != r[j].task
        ensures !r[j].redundantOut ==> r[i].isIn || r[j].isIn
      {
        var i0 := if i <= k then i - 1 else if i == n then k else if i < n then i else i - 1;
        var j0 := if j <= k then j - 1 else if j == n then k else if j < n then j else j - 1;
        assert i > 0 ==> r[i].task == c[i0].task && i0 != j0;
        assert r[j].task == c[j0].task && c[j0].task in TasksOf(c);
      }
    }
  }

  lemma AddedToMeaning(u: Uses, e: Entry)
    requires !e.redundantOut
    ensures e.isIn || u.writer == None ==> Join(MeaningOf(e), u) == u.Add(e.task, e.isIn)
    ensures !e.isIn && u.writer.Some? ==>
      Join(MeaningOf(e), Uses(u.readers, None, u.hidden + {u.writer.value})) == u.Add(e.task, e.isIn)
  {
  }

  lemma NotLocated(c: Chain, n: nat)
    requires ChainOk(c) && Located(c, n, -1)
    ensures NoWriter(c)
  {
    forall i | 0 <= i < |c| ensures c[i].redundantOut || c[i].isIn {
      if i > n { assert c[n].redundantOut; }
    }
  }

  lemma NewChainMeaning(c: Chain, e: Entry, n: nat, k: int)
    requires ChainOk(c) && Located(c, n, k) && !e.redundantOut
    ensures n <= |c| && (k == -1 || 0 <= k < n)
    ensures Meaning(NewChain(c, e, n, k)) == Meaning(c).Add(e.task, e.isIn)
  {
    assert n <= |c| && (k == -1 || 0 <= k < n);
    assert NewChain(c, e, n, k) == if e.isIn || k < 0 then [e] + c else [e] + Demoted(c, n, k);
    hide *;
    MeaningOfOne(e);
    AddedToMeaning(Meaning(c), e);
    if e.isIn || k < 0 {
      MeaningOfConcat([e], c);
      if k < 0 {
        NotLocated(c, n);
        MeaningWriter(c);
      }
    } else {
      DemotedMeaning(c, n, k);
      MeaningOfConcat([e], Demoted(c, n, k));
    }
  }

  lemma UnlinkOk(c: Chain, i: nat)
    requires ChainOk(c) && i < |c|
    ensures ChainOk(c[..i]) && ChainOk(c[i + 1..]) && ChainOk(c[..i] + c[i + 1..])
    ensures c[i].task !in TasksOf(c[..i]) && c[i].task !in TasksOf(c[i + 1..])
    ensures !c[i].redundantOut && !c[i].isIn ==> NoWriter(c[..i]) && NoWriter(c[i + 1..])
  {
    var r := c[..i] + c[i + 1..];
    assert forall j | 0 <= j < i :: r[j] == c[j];
    assert forall j | i <= j < |r| :: r[j] == c[j + 1];
  }

  /** Unlinking the entry of a finished task. */
  lemma UnlinkMeaning(c: Chain, i: nat)
    requires ChainOk(c) && i < |c|
    ensures Meaning(c[..i] + c[i + 1..]) == Meaning(c).Remove(c[i].task)
  {
    var pre, e, post := c[..i], c[i], c[i + 1..];
    UnlinkOk(c, i);
    hide ChainOk, Meaning, Join, MeaningOf;
    SplitMeaning(pre, e, post);
    assert c == pre + [e] + post;
    MeaningTasks(pre);
    MeaningTasks(post);
    MeaningWriter(pre);
    MeaningWriter(post);
    JoinRemove(Meaning(pre), e, Meaning(post));
  }

  lemma SplitMeaning(pre: Chain, e: Entry, post: Chain)
    ensures Meaning(pre + [e] + post) == Join(Meaning(pre), Join(MeaningOf(e), Meaning(post)))
    ensures Meaning(pre + post) == Join(Meaning(pre), Meaning(post))
  {
    hide Meaning, Join, MeaningOf;
    assert pre + [e] + post == pre + ([e] + post);
    MeaningOfConcat(pre, [e] + post);
    MeaningOfConcat([e], post);
    MeaningOfConcat(pre, post);
    MeaningOfOne(e);
  }
  lemma {:induction false} RedundantMeaning(c: Chain)
    requires forall i | 0 <= i < |c| :: c[i].redundantOut
    ensures Meaning(c).readers == {} && Meaning(c).writer == None
  {
    if c != [] { RedundantMeaning(c[1..]); }
  }
}
