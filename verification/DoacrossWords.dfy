/** The multi-word form of doacross post and wait (ordered.c:394-400 and 463-485).

  One slot is an array of words, one per loop dimension, that only its owner writes.  A post
  stores the iteration vector plus one, innermost word first, one word per step; a wait reads
  outermost word first, one word per step, and starts over when the word it reads is too small.
  Vectors here are in stored form (each component plus one; the slot starts as all zeros).
  The owner posts its iterations in the order it executes them, so its posts never decrease.
 */
module DoacrossWords {
  import opened Runs
  import opened Lex

  type Tid = nat

  datatype Writer =
    | Resting
    | Storing(done: nat)          // words done.. hold the current post, words ..done the previous

  datatype Reader =
    | Outside
    | Reading(v: Vec, i: nat)     // waits for v, about to load word i
    | Passed(v: Vec)

  /** `posts` is history: the all-zero vector and then every post begun so far. */
  datatype State = State(words: Vec, posts: seq<Vec>, writer: Writer, readers: map<Tid, Reader>)

  ghost predicate Init(s: State) {
    && |s.words| > 0
    && (forall j | 0 <= j < |s.words| :: s.words[j] == 0)
    && s.posts == [s.words]
    && s.writer == Resting
    && forall t | t in s.readers :: s.readers[t] == Outside
  }

  ghost predicate BeginPost(s: State, s': State)
    requires |s.posts| > 0
  {
    && s.writer == Resting
    && exists v: Vec {:trigger s.posts + [v]} ::
         && |v| == |s.words| == |s.posts[|s.posts| - 1]|
         && LexLe(s.posts[|s.posts| - 1], v)
         && s' == s.(posts := s.posts + [v], writer := Storing(|s.words|))
  }

  /** The load and the conditional store of one word: nobody else writes the slot. */
  ghost predicate StoreWord(s: State, s': State)
    requires |s.posts| > 0
  {
    && s.writer.Storing?
    && var k, v := s.writer.done, s.posts[|s.posts| - 1];
       if k == 0 then
         s' == s.(writer := Resting)
       else
         && k <= |s.words| == |v|
         && s' == s.(words := s.words[k - 1 := v[k - 1]], writer := Storing(k - 1))
  }

  ghost predicate ReadStep(s: State, t: Tid, s': State)
    requires t in s.readers
  {
    match s.readers[t]
    case Outside =>
      exists v: Vec :: |v| == |s.words| && s' == s.(readers := s.readers[t := Reading(v, 0)])
    case Reading(v, i) =>
      && i < |v| == |s.words|
      && s' == s.(readers := s.readers[t :=
           if v[i] < s.words[i] then Passed(v)
           else if v[i] > s.words[i] then Reading(v, 0)
           else if i + 1 == |v| then Passed(v)
           else Reading(v, i + 1)])
    case Passed(_) => s' == s.(readers := s.readers[t := Outside])
  }

  ghost predicate Next(s: State, s': State) {
    && |s.posts| > 0
    && (BeginPost(s, s') || StoreWord(s, s') || exists t :: t in s.readers && ReadStep(s, t, s'))
  }

  /** The latest post begun. */
  ghost function Latest(s: State): Vec
    requires |s.posts| > 0
  {
    s.posts[|s.posts| - 1]
  }

  /** The post that word j comes from: different words may come from different posts. */
  ghost function Source(s: State, j: nat): Vec
    requires |s.posts| > 0
    requires s.writer.Storing? ==> |s.posts| > 1
  {
    if s.writer.Storing? && j < s.writer.done then s.posts[|s.posts| - 2] else Latest(s)
  }

  ghost predicate Shape(s: State) {
    && |s.words| > 0 && |s.posts| > 0
    && (forall m | 0 <= m < |s.posts| :: |s.posts[m]| == |s.words|)
    && (s.writer.Storing? ==> |s.posts| > 1 && s.writer.done <= |s.words|)
    && (s.writer.Storing? ==> LexLe(s.posts[|s.posts| - 2], Latest(s)))
    && (forall j | 0 <= j < |s.words| :: s.words[j] == Source(s, j)[j])
  }

  /** What a reader already knows: the words it has passed, together, are not larger than the
      same prefix of the post that its next word comes from. */
  ghost predicate ReaderOk(s: State, r: Reader)
    requires Shape(s)
  {
    match r
    case Outside => true
    case Reading(v, i) => i < |v| == |s.words| && LexLe(v[..i], Source(s, i)[..i])
    case Passed(v) => |v| == |s.words| && LexLe(v, Latest(s))
  }

  ghost predicate Inv(s: State) {
    Shape(s) && forall t | t in s.readers :: ReaderOk(s, s.readers[t])
  }

  lemma WriterKeepsShape(s: State, s': State)
    requires Shape(s) && (BeginPost(s, s') || StoreWord(s, s'))
    ensures Shape(s') && |s'.words| == |s.words|
  {
    assert |s.posts[|s.posts| - 1]| == |s.words|;
    if BeginPost(s, s') {
      assert s'.posts[|s'.posts| - 2] == Latest(s);
    }
  }

  /** Whatever the writer does, the post behind a given word only grows. */
  lemma SourceGrows(s: State, s': State, j: nat)
    requires Shape(s) && (BeginPost(s, s') || StoreWord(s, s')) && j < |s.words|
    requires Shape(s')
    ensures LexLe(Source(s, j), Source(s', j)) && LexLe(Latest(s), Latest(s'))
  {
    Reflexive(Latest(s));
    Reflexive(Source(s, j));
    assert s'.posts[|s.posts| - 1] == Latest(s);
    if s'.writer.Storing? && j < s'.writer.done && s.writer.Storing? {
      assert Source(s', j) == Source(s, j);
    }
  }

  lemma WriterKeepsReader(s: State, s': State, r: Reader)
    requires Shape(s) && (BeginPost(s, s') || StoreWord(s, s')) && Shape(s') && ReaderOk(s, r)
    ensures |s'.words| == |s.words| && ReaderOk(s', r)
  {
    match r
    case Outside =>
    case Reading(v, i) =>
      SourceGrows(s, s', i);
      PrefixOf(Source(s, i), Source(s', i), i);
      Transitive(v[..i], Source(s, i)[..i], Source(s', i)[..i]);
    case Passed(v) =>
      SourceGrows(s, s', 0);
      Transitive(v, Latest(s), Latest(s'));
  }

  /** Outer words come from posts no later than inner ones. */
  lemma InnerIsLater(s: State, i: nat)
    requires Shape(s) && i < |s.words|
    ensures LexLe(Source(s, i), Latest(s))
    ensures i + 1 < |s.words| ==> LexLe(Source(s, i), Source(s, i + 1))
  {
    Reflexive(Source(s, i));
  }

  lemma ReadKeepsReader(s: State, t: Tid, s': State)
    requires Inv(s) && t in s.readers && ReadStep(s, t, s')
    ensures Shape(s') && ReaderOk(s', s'.readers[t])
  {
    assert ReaderOk(s, s.readers[t]);
    if s.readers[t].Reading? {
      var v, i := s.readers[t].v, s.readers[t].i;
      var p := Source(s, i);
      assert v[..0] == Source(s, 0)[..0];
      InnerIsLater(s, i);
      if v[i] < s.words[i] {
        DecidedAt(v, p, i);
        Transitive(v, p, Latest(s));
      } else if v[i] == s.words[i] {
        ExtendPrefix(v, p, i);
        if i + 1 == |v| {
          assert v[..i + 1] == v && p[..i + 1] == p;
          Transitive(v, p, Latest(s));
        } else {
          PrefixOf(p, Source(s, i + 1), i + 1);
          Transitive(v[..i + 1], p[..i + 1], Source(s, i + 1)[..i + 1]);
        }
      }
    }
  }

  lemma NextKeepsInv(s: State, s': State)
    requires Inv(s) && Next(s, s')
    ensures Inv(s')
  {
    if BeginPost(s, s') || StoreWord(s, s') {
      WriterKeepsShape(s, s');
      assert s'.readers == s.readers;
      hide BeginPost, StoreWord, Shape, ReaderOk;
      forall t | t in s'.readers ensures ReaderOk(s', s'.readers[t]) {
        WriterKeepsReader(s, s', s.readers[t]);
      }
    } else {
      var t :| t in s.readers && ReadStep(s, t, s');
      ReadKeepsReader(s, t, s');
      OtherReaders(s, t, s');
    }
  }

  lemma OtherReaders(s: State, t: Tid, s': State)
    requires Inv(s) && t in s.readers && ReadStep(s, t, s')
    ensures s'.readers.Keys == s.readers.Keys
    ensures Shape(s') && forall u | u in s'.readers && u != t :: ReaderOk(s', s'.readers[u])
  {
    assert s' == s.(readers := s'.readers);
    forall u | u in s'.readers && u != t ensures ReaderOk(s', s'.readers[u]) {
      assert ReaderOk(s, s.readers[u]);
    }
  }

  lemma InvAlong(run: seq<State>, k: nat)
    requires IsRun(Init, Next, run) && k < |run|
    ensures Inv(run[k])
  {
    forall s, s' | Inv(s) && Next(s, s') ensures Inv(s') {
      NextKeepsInv(s, s');
    }
    HoldsAlong(Init, Next, Inv, run, k);
  }

  /** In every interleaving of one writer and any number of readers: a reader that passes for
      `v` has passed only after a post of some vector >= v began, although the words it read
      may come from several different posts. */
  lemma NeverPassesEarly(run: seq<State>, k: nat, t: Tid)
    requires IsRun(Init, Next, run) && k < |run|
    requires t in run[k].readers && run[k].readers[t].Passed?
    ensures var v := run[k].readers[t].v;
            exists m :: 0 <= m < |run[k].posts| && |run[k].posts[m]| == |v| && LexLe(v, run[k].posts[m])
  {
    InvAlong(run, k);
    assert ReaderOk(run[k], run[k].readers[t]);
  }

  /** One scan of a slot that nobody is writing (the body of the do loop of the wait). */
  method Scan(words: seq<nat>, v: seq<nat>) returns (passed: bool)
    requires |words| == |v|
    ensures passed <==> LexLe(v, words)
  {
    var i := 0;
    assert v[..0] == words[..0];
    while i < |v|
      invariant 0 <= i <= |v|
      invariant v[..i] == words[..i]
    {
      Reflexive(v[..i]);
      if v[i] < words[i] {
        DecidedAt(v, words, i);
        return true;
      }
      if v[i] > words[i] {
        RefutedAt(v, words, i);
        return false;
      }
      assert v[..i + 1] == v[..i] + [v[i]] && words[..i + 1] == words[..i] + [words[i]];
      i := i + 1;
    }
    assert v == v[..i] && words == words[..i];
    Reflexive(v);
    return true;
  }

  /** Between posts the slot holds the latest post exactly, so a scan that meets no post
      succeeds exactly when the latest post is >= v: a waiter is not held back for ever. */
  lemma QuietSlotHoldsLatest(run: seq<State>, k: nat)
    requires IsRun(Init, Next, run) && k < |run|
    requires run[k].writer == Resting
    ensures |run[k].posts| > 0 && run[k].words == Latest(run[k])
  {
    InvAlong(run, k);
  }

  /** A reader that goes on alone. */
  ghost predicate Alone(t: Tid, run: seq<State>) {
    forall i, j :: 0 <= i && j == i + 1 < |run| ==> Reads(run[i], t, run[j])
  }

  ghost predicate Reads(s: State, t: Tid, s': State) {
    t in s.readers && ReadStep(s, t, s')
  }

  /** While nobody writes, a reader that starts over is through after one scan at most, and has passed
      exactly if the slot is at or beyond what it waits for. */
  lemma {:induction false} QuietReader(s: State, t: Tid, v: Vec, i: nat) returns (run: seq<State>)
    requires t in s.readers && s.readers[t] == Reading(v, i) && i < |v| == |s.words| && v[..i] == s.words[..i]
    ensures 1 < |run| <= |v| - i + 1 && run[0] == s && Alone(t, run)
    ensures var last := run[|run| - 1];
      last == s.(readers := s.readers[t := if LexLe(v, s.words) then Passed(v) else Reading(v, 0)])
    decreases |v| - i
  {
    Reflexive(v[..i]);
    if v[i] < s.words[i] {
      DecidedAt(v, s.words, i);
      run := [s, s.(readers := s.readers[t := Passed(v)])];
    } else if v[i] > s.words[i] {
      RefutedAt(v, s.words, i);
      run := [s, s.(readers := s.readers[t := Reading(v, 0)])];
    } else {
      assert v[..i + 1] == v[..i] + [v[i]] && s.words[..i + 1] == s.words[..i] + [s.words[i]];
      if i + 1 == |v| {
        assert v == v[..i + 1] && s.words == s.words[..i + 1];
        Reflexive(v);
        run := [s, s.(readers := s.readers[t := Passed(v)])];
      } else {
        var s' := s.(readers := s.readers[t := Reading(v, i + 1)]);
        var rest := QuietReader(s', t, v, i + 1);
        run := [s] + rest;
        SameEnd(s, t, Reading(v, i + 1), if LexLe(v, s.words) then Passed(v) else Reading(v, 0));
        OneStepMore(t, s, rest);
      }
    }
  }

  lemma SameEnd(s: State, t: Tid, r: Reader, r': Reader)
    requires t in s.readers
    ensures var s' := s.(readers := s.readers[t := r]); s'.(readers := s'.readers[t := r']) == s.(readers := s.readers[t := r'])
  {
  }

  lemma OneStepMore(t: Tid, s: State, rest: seq<State>)
    requires rest != [] && Alone(t, rest) && Reads(s, t, rest[0])
    ensures Alone(t, [s] + rest)
  {
    hide Reads;
    var run := [s] + rest;
    forall i, j | 0 <= i && j == i + 1 < |run| ensures Reads(run[i], t, run[j]) {
      assert run[j] == rest[i];
      if i > 0 { assert run[i] == rest[i - 1]; }
    }
    assert Alone(t, run);
  }

  /** And the writer can always go on. */
  lemma WriterGoesOn(run: seq<State>, k: nat)
    requires IsRun(Init, Next, run) && k < |run| && run[k].writer.Storing?
    ensures |run[k].posts| > 0
    ensures exists s' :: StoreWord(run[k], s') && (s'.writer == Resting || s'.writer == Storing(run[k].writer.done - 1))
  {
    InvAlong(run, k);
    var s := run[k];
    var j, v := s.writer.done, Latest(s);
    assert |v| == |s.words|;
    var s' := if j == 0 then s.(writer := Resting) else s.(words := s.words[j - 1 := v[j - 1]], writer := Storing(j - 1));
    assert StoreWord(s, s');
  }
}
