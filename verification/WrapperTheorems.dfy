// What becomes of a call in a run of admission and registries together: which calls reach the
// system call, and which have to take a token (src/throttling_api.c:686-807).
module WrapperTheorems {
  import opened Wrappers
  import opened RcuHeap
  import opened WrapperCall
  import P = Projection
  import T = Throttle
  import TS = ThrottleSafety
  import TO = ThrottleOutcome
  import R = Rcu
  import RT = RcuTheorems
  import RL = RcuLookup

  // ---------------------------------------------------------------- a lookup

  // Reader t's lookup of the key is under way from state x to state y.
  ghost predicate InSection(ps: seq<State>, bucket: Bucketing, t: nat, key: Key, x: nat, y: nat)
  {
    && x <= y < |ps| && RL.AtStart(ps[x].reg, bucket, t, R.Find(key))
    && (forall z :: x <= z <= y ==> t < |ps[z].reg.readers| && ps[z].reg.readers[t].Inside?)
  }

  // The key is registered in some state, or in every state, from x to y.
  ghost predicate Ever(ps: seq<State>, key: Key, x: nat, y: nat)
    requires y < |ps|
  {
    exists z :: x <= z <= y && !Absent(ps[z].reg.heap, key)
  }

  ghost predicate Always(ps: seq<State>, key: Key, x: nat, y: nat)
    requires y < |ps|
  {
    forall z :: x <= z <= y ==> !Absent(ps[z].reg.heap, key)
  }

  // The states of the registry run that belong to the states x to y.
  lemma RegistrySite(ps: seq<State>, ks: seq<Step>, bucket: Bucketing, x: nat, y: nat, w: nat) returns (z: nat)
    requires IsRun(ps, ks, bucket) && x <= y < |ps|
    requires P.Count(RegParts(ps, ks), x) <= w <= P.Count(RegParts(ps, ks), y)
    ensures var ss := P.Stops(RegStates(ps), RegParts(ps, ks));
            x <= z <= y && w < |ss| && ss[w] == ps[z].reg
  {
    z := P.Site(RegParts(ps, ks), x, y, w);
    RegistryRuns(ps, ks, bucket, z);
  }

  // The section is one of the registry run.
  lemma SectionRuns(ps: seq<State>, ks: seq<Step>, bucket: Bucketing, t: nat, key: Key, x: nat, y: nat)
    requires IsRun(ps, ks, bucket) && InSection(ps, bucket, t, key, x, y)
    ensures var parts := RegParts(ps, ks);
            var ss := P.Stops(RegStates(ps), parts);
            && RL.IsSection(ss, P.Moves(parts), bucket, t, R.Find(key), P.Count(parts, x), P.Count(parts, y))
            && ss[P.Count(parts, y)] == ps[y].reg && ss[0] == ps[0].reg
  {
    RegistryRuns(ps, ks, bucket, x);
    RegistryRuns(ps, ks, bucket, y);
    P.CountGrows(RegParts(ps, ks), x, y);
    var parts := RegParts(ps, ks);
    var ss, a, b := P.Stops(RegStates(ps), parts), P.Count(parts, x), P.Count(parts, y);
    assert ss[0] == ps[0].reg;
    forall w | a <= w <= b
      ensures t < |ss[w].readers| && ss[w].readers[t].Inside?
    {
      hide IsRun, RT.IsRun, RL.AtStart, P.Stops, P.Count, P.Moves, RegParts;
      var z := RegistrySite(ps, ks, bucket, x, y, w);
    }
    hide *;
    IsOneSection(ss, P.Moves(parts), bucket, t, key, a, b, ps[x].reg);
  }

  lemma IsOneSection(ss: seq<R.State>, ks: seq<R.Step>, bucket: Bucketing, r: nat, key: Key, a: nat, b: nat, s: R.State)
    requires RT.IsRun(ss, ks, bucket) && a <= b < |ss| && ss[a] == s && RL.AtStart(s, bucket, r, R.Find(key))
    requires forall w :: a <= w <= b ==> r < |ss[w].readers| && ss[w].readers[r].Inside?
    ensures RL.IsSection(ss, ks, bucket, r, R.Find(key), a, b)
  {
    hide RT.IsRun, RL.AtStart;
  }

  // Its answer is right at some moment of it.
  lemma SectionAnswer(ps: seq<State>, ks: seq<Step>, bucket: Bucketing, t: nat, key: Key, x: nat, y: nat)
    requires IsRun(ps, ks, bucket) && InSection(ps, bucket, t, key, x, y) && ps[y].reg.readers[t].pc.Ended?
    ensures ps[y].reg.readers[t].call.Some? ==> Ever(ps, key, x, y)
    ensures ps[y].reg.readers[t].call.None? ==> !Always(ps, key, x, y)
  {
    SectionRuns(ps, ks, bucket, t, key, x, y);
    var parts := RegParts(ps, ks);
    var ss, a, b := P.Stops(RegStates(ps), parts), P.Count(parts, x), P.Count(parts, y);
    hide IsRun, RegParts, P.Stops, P.Count, P.Moves;
    var w := AnswerMoment(ss, P.Moves(parts), bucket, t, key, a, b);
    var z := RegistrySite(ps, ks, bucket, x, y, w);
    hide *;
  }

  lemma AnswerMoment(ss: seq<R.State>, ks: seq<R.Step>, bucket: Bucketing, r: nat, key: Key, a: nat, b: nat)
    returns (w: nat)
    requires RL.IsSection(ss, ks, bucket, r, R.Find(key), a, b) && ss[b].readers[r].pc.Ended?
    ensures a <= w <= b && (ss[b].readers[r].call.None? <==> Absent(ss[w].heap, key))
  {
    RL.LookupLinearizable(ss, ks, bucket, r, key, a, b);
    RL.SectionInv(ss, ks, bucket, r, R.Find(key), a, b);
    RL.SectionFacts(ss, ks, bucket, r, R.Find(key), a, b);
    hide R.Shape, HeapOk, RT.IsRun;
    if ss[b].readers[r].call.None? {
      w :| a <= w <= b && Absent(ss[w].heap, key);
    } else {
      var n := ss[b].readers[r].pc.hit.value;
      w :| a <= w <= b && IsLinked(ss[w].heap, n) && ss[w].heap.nodes[n].key == ss[b].heap.nodes[n].key;
    }
  }

  // ---------------------------------------------------------------- one step

  // How a thread gets from one state to the next.
  lemma ThreadMoves(p: State, bucket: Bucketing, k: Step, p': State, t: nat)
    requires Next(p, bucket, k, p') && t < |p.adm.threads|
    ensures var th, part := p.adm.threads[t], AdmPart(p, k);
            && |p'.adm.threads| == |p.adm.threads|
            && var th' := p'.adm.threads[t];
               if part == Some(T.Call(t)) then th'.pc == T.Entry
               else if part.Some? && part.value.Run? && part.value.t == t then
                 th' == T.Advance(p.adm, th, part.value.need, part.value.found)
               else th'.pc == th.pc && th'.found == th.found
  {
    PartsOfStep(p, bucket, k, p');
    if AdmPart(p, k).Some? {
      TS.ThreadsFrame(p.adm, AdmPart(p, k).value);
    }
    hide Next;
  }

  // How a reader does.
  lemma ReaderMoves(p: State, bucket: Bucketing, k: Step, p': State, t: nat)
    requires Next(p, bucket, k, p') && t < |p.looks| && t < |p.reg.readers|
    ensures |p'.reg.readers| == |p.reg.readers| && |p'.looks| == |p.looks|
    ensures var r, r' := p.reg.readers[t], p'.reg.readers[t];
            if k == Open(t) then
              r.Outside? && RL.AtStart(p'.reg, bucket, t, R.Find(NextKey(p.looks[t]))) && p'.looks == p.looks
            else if k == Close(t) then
              r.Inside? && r.pc.Ended? && r' == R.Outside(r.goal, r.call)
              && p'.looks == p.looks[t := Answered(p.looks[t], r.call.Some?)]
            else
              && (r.Outside? ==> r' == r) && (r.Inside? ==> r'.Inside? && r'.goal == r.goal)
              && (!(k.Enter? && k.t == t) ==> p'.looks[t] == p.looks[t])
  {
    PartsOfStep(p, bucket, k, p');
    hide T.Enabled, T.Apply, HeapOk, R.WriteStep;
  }

  // ---------------------------------------------------------------- every state

  predicate LookOk(l: Look)
  {
    && (l.byName.Some? ==> l.byUid == Some(false))
    && (l.found.Some? ==> l.byUid.Some? && (l.byUid.value || l.byName.Some?))
  }

  // A thread reads the registries only at its lookup, for the key it needs next; once the
  // original entry was looked up, the pointer stays with it.
  predicate ThreadOk(p: State, t: nat)
    requires t < |p.looks| && t < |p.adm.threads| && t < |p.reg.readers|
  {
    var l, pc, r := p.looks[t], p.adm.threads[t].pc, p.reg.readers[t];
    && LookOk(l)
    && (pc.Entry? ==> l.byUid.None?)
    && (r.Inside? ==> pc.Lookup? && l.found.None? && r.goal == R.Find(NextKey(l)))
    && (l.found.Some? ==> r.Outside? && r.goal == R.Find(Sys(l.nr)) && r.call.Some? == l.found.value)
  }

  predicate Ok(p: State)
  {
    && |p.looks| == |p.adm.threads| <= |p.reg.readers|
    && (forall t :: 0 <= t < |p.looks| ==> ThreadOk(p, t))
  }

  lemma ThreadStep(p: State, bucket: Bucketing, k: Step, p': State, t: nat)
    requires Next(p, bucket, k, p') && Ok(p) && t < |p.looks|
    ensures |p'.looks| == |p.looks| == |p'.adm.threads| <= |p'.reg.readers| && ThreadOk(p', t)
  {
    ThreadMoves(p, bucket, k, p', t);
    ReaderMoves(p, bucket, k, p', t);
    assert ThreadOk(p, t);
    assert Allowed(p, k);
    hide R.Shape, R.Apply, T.Apply, R.Enabled;
  }

  lemma {:induction false} OkRun(ps: seq<State>, ks: seq<Step>, bucket: Bucketing, i: nat)
    requires IsRun(ps, ks, bucket) && i < |ps|
    ensures Ok(ps[i])
  {
    if i > 0 {
      OkRun(ps, ks, bucket, i - 1);
      assert Next(ps[i - 1], bucket, ks[i - 1], ps[i]);
      hide Next, ThreadOk;
      forall t | 0 <= t < |ps[i - 1].looks|
        ensures |ps[i].looks| == |ps[i - 1].looks| == |ps[i].adm.threads| <= |ps[i].reg.readers| && ThreadOk(ps[i], t)
      {
        ThreadStep(ps[i - 1], bucket, ks[i - 1], ps[i], t);
      }
      SizesStep(ps[i - 1], bucket, ks[i - 1], ps[i]);
    }
  }

  lemma SizesStep(p: State, bucket: Bucketing, k: Step, p': State)
    requires Next(p, bucket, k, p') && Ok(p)
    ensures |p'.looks| == |p.looks| == |p'.adm.threads| <= |p'.reg.readers|
  {
    PartsOfStep(p, bucket, k, p');
    if AdmPart(p, k).Some? {
      TS.ThreadsFrame(p.adm, AdmPart(p, k).value);
    }
    hide T.Enabled, T.Apply, HeapOk, R.WriteStep;
  }

  // Every step that is enabled can be taken: the guard of Next hides nothing.
  lemma StepsAreDefined(ps: seq<State>, ks: seq<Step>, bucket: Bucketing, k: Step)
    requires IsRun(ps, ks, bucket) && Enabled(ps[|ks|], k)
    ensures R.Shape(ps[|ks|].reg, bucket)
    ensures IsRun(ps + [Apply(ps[|ks|], bucket, k)], ks + [k], bucket)
  {
    RegistryRuns(ps, ks, bucket, |ks|);
    var parts := RegParts(ps, ks);
    RT.RunInvHolds(P.Stops(RegStates(ps), parts), P.Moves(parts), bucket, P.Count(parts, |ks|));
    var p' := Apply(ps[|ks|], bucket, k);
    assert Next(ps[|ks|], bucket, k, p');
    hide *;
    Extended(ps, ks, bucket, k, p');
  }

  lemma Extended(ps: seq<State>, ks: seq<Step>, bucket: Bucketing, k: Step, p': State)
    requires IsRun(ps, ks, bucket) && Next(ps[|ks|], bucket, k, p')
    ensures IsRun(ps + [p'], ks + [k], bucket)
  {
    hide Next, Init;
    var ps', ks' := ps + [p'], ks + [k];
    forall i | 0 <= i < |ks'|
      ensures Next(ps'[i], bucket, ks'[i], ps'[i + 1])
    {
      assert i < |ks| ==> ks'[i] == ks[i] && ps'[i] == ps[i] && ps'[i + 1] == ps[i + 1];
    }
  }

  // A thread at its lookups can always go on with them.
  lemma LookupGoesOn(ps: seq<State>, ks: seq<Step>, bucket: Bucketing, t: nat)
    requires IsRun(ps, ks, bucket) && AtLookup(ps[|ks|], t)
    ensures exists k :: (k == Open(t) || k == Registry(R.Read(t)) || k == Close(t) || k == Decide(t)) && Enabled(ps[|ks|], k)
  {
    OkRun(ps, ks, bucket, |ks|);
    var p := ps[|ks|];
    assert ThreadOk(p, t);
    hide IsRun;
    if p.reg.readers[t].Outside? {
      if p.looks[t].found.Some? {
        assert Enabled(p, Decide(t));
      } else {
        assert Enabled(p, Open(t));
      }
    } else if p.reg.readers[t].pc.Ended? {
      assert Enabled(p, Close(t));
    } else {
      assert Enabled(p, Registry(R.Read(t)));
    }
  }

  // ---------------------------------------------------------------- a call

  // The steps from i up to j are of one call of thread t, whose entry test is step i.
  predicate IsCall(ps: seq<State>, ks: seq<Step>, t: nat, i: nat, j: nat)
  {
    && |ps| == |ks| + 1 && i < j < |ps| && t < |ps[i].looks| && t < |ps[i].adm.threads|
    && ks[i].Admission? && ks[i].a.Run? && ks[i].a.t == t && ps[i].adm.threads[t].pc.Entry?
    && (forall x :: i < x < j ==> !(ks[x].Enter? && ks[x].t == t))
  }

  // Between states i and j thread t has looked the key up, with this answer.
  ghost predicate LookedUp(ps: seq<State>, bucket: Bucketing, t: nat, key: Key, i: nat, j: nat, yes: bool)
  {
    exists x: nat, y: nat :: i <= x <= y < j && InSection(ps, bucket, t, key, x, y)
                   && ps[y].reg.readers[t].pc.Ended? && yes == ps[y].reg.readers[t].call.Some?
  }

  // The answers the call has are those of its sections, and one that is open began in the call.
  ghost predicate Honest(ps: seq<State>, bucket: Bucketing, t: nat, i: nat, j: nat)
    requires i <= j < |ps| && t < |ps[j].looks| && t < |ps[i].looks| && t < |ps[j].reg.readers|
  {
    var l := ps[j].looks[t];
    && l == ps[i].looks[t].(byUid := l.byUid, byName := l.byName, found := l.found)
    && (l.byUid.Some? ==> LookedUp(ps, bucket, t, Uid(l.uid), i, j, l.byUid.value))
    && (l.byName.Some? ==> LookedUp(ps, bucket, t, Prog(l.name), i, j, l.byName.value))
    && (l.found.Some? ==> LookedUp(ps, bucket, t, Sys(l.nr), i, j, l.found.value))
    && (ps[j].reg.readers[t].Inside? ==> exists x: nat :: i <= x <= j && InSection(ps, bucket, t, NextKey(l), x, j))
  }

  lemma LookedUpStays(ps: seq<State>, bucket: Bucketing, t: nat, i: nat, j: nat)
    ensures forall key, yes :: LookedUp(ps, bucket, t, key, i, j, yes) ==> LookedUp(ps, bucket, t, key, i, j + 1, yes)
  {
    hide InSection;
  }

  lemma SectionGrows(ps: seq<State>, bucket: Bucketing, t: nat, key: Key, x: nat, j: nat)
    requires InSection(ps, bucket, t, key, x, j) && j + 1 < |ps|
    requires t < |ps[j + 1].reg.readers| && ps[j + 1].reg.readers[t].Inside?
    ensures InSection(ps, bucket, t, key, x, j + 1)
  {
  }

  lemma HonestStep(ps: seq<State>, ks: seq<Step>, bucket: Bucketing, t: nat, i: nat, j: nat)
    requires IsRun(ps, ks, bucket) && i <= j < |ks| && t < |ps[i].looks| && t < |ps[j].looks|
    requires Ok(ps[j]) && Honest(ps, bucket, t, i, j) && !(ks[j].Enter? && ks[j].t == t)
    ensures t < |ps[j + 1].looks| && t < |ps[j + 1].reg.readers| && Honest(ps, bucket, t, i, j + 1)
  {
    hide Enabled, Apply, R.Shape;
    var p, k, p' := ps[j], ks[j], ps[j + 1];
    assert Next(p, bucket, k, p');
    ReaderMoves(p, bucket, k, p', t);
    LookedUpStays(ps, bucket, t, i, j);
    assert ThreadOk(p, t);
    hide IsRun, Next, LookedUp, InSection, RL.AtStart, ThreadOk, LookOk, R.ScanStep;
    if k == Open(t) {
      OpenBegins(ps, bucket, t, NextKey(p.looks[t]), j + 1);
    } else if p.reg.readers[t].Inside? {
      var x: nat :| i <= x <= j && InSection(ps, bucket, t, NextKey(p.looks[t]), x, j);
      if k == Close(t) {
        CloseAnswers(ps, bucket, t, NextKey(p.looks[t]), i, x, j);
      } else {
        SectionGrows(ps, bucket, t, NextKey(p.looks[t]), x, j);
      }
    }
  }

  lemma OpenBegins(ps: seq<State>, bucket: Bucketing, t: nat, key: Key, j: nat)
    requires j < |ps| && RL.AtStart(ps[j].reg, bucket, t, R.Find(key))
    ensures InSection(ps, bucket, t, key, j, j)
  {
  }

  lemma CloseAnswers(ps: seq<State>, bucket: Bucketing, t: nat, key: Key, i: nat, x: nat, j: nat)
    requires i <= x <= j && InSection(ps, bucket, t, key, x, j) && ps[j].reg.readers[t].pc.Ended?
    ensures LookedUp(ps, bucket, t, key, i, j + 1, ps[j].reg.readers[t].call.Some?)
  {
    hide InSection;
  }

  lemma {:induction false} HonestRun(ps: seq<State>, ks: seq<Step>, bucket: Bucketing, t: nat, i: nat, j: nat)
    requires IsRun(ps, ks, bucket) && i <= j < |ps| && t < |ps[i].looks| && t < |ps[i].adm.threads|
    requires ps[i].adm.threads[t].pc.Entry?
    requires forall x :: i <= x < j ==> !(ks[x].Enter? && ks[x].t == t)
    ensures t < |ps[j].looks| && t < |ps[j].reg.readers| && Honest(ps, bucket, t, i, j)
    decreases j
  {
    OkRun(ps, ks, bucket, i);
    if j == i {
      assert ThreadOk(ps[i], t);
    } else {
      HonestRun(ps, ks, bucket, t, i, j - 1);
      OkRun(ps, ks, bucket, j - 1);
      hide IsRun, Honest, ThreadOk;
      HonestStep(ps, ks, bucket, t, i, j - 1);
    }
  }

  // What the answers make of the call, once it has them.
  predicate Settled(th: T.Thread, l: Look, on: bool)
  {
    && TO.Decided(th, on)
    && (on && !th.pc.Lookup? && !th.pc.Idle? ==>
          && l.found.Some? && th.found == l.found.value
          && (th.pc == T.Leave(T.Unmonitored) <==> !Need(l)))
  }

  lemma SettledStep(p: State, bucket: Bucketing, k: Step, p': State, t: nat, on: bool)
    requires Next(p, bucket, k, p') && Ok(p) && t < |p.looks| && !(k.Enter? && k.t == t)
    requires || Settled(p.adm.threads[t], p.looks[t], on)
             || (k.Admission? && k.a.Run? && k.a.t == t && p.adm.threads[t].pc.Entry? && p.adm.on == on)
    ensures t < |p'.looks| && t < |p'.adm.threads| && Settled(p'.adm.threads[t], p'.looks[t], on)
  {
    hide Apply, R.Shape, R.Enabled, T.Enabled;
    ThreadMoves(p, bucket, k, p', t);
    ReaderMoves(p, bucket, k, p', t);
    assert Allowed(p, k);
    assert k.Admission? ==> !k.a.Call?;
    hide Next, ThreadOk, RL.AtStart;
  }

  lemma {:induction false} SettledRun(ps: seq<State>, ks: seq<Step>, bucket: Bucketing, t: nat, i: nat, j: nat)
    requires IsRun(ps, ks, bucket) && IsCall(ps, ks, t, i, j)
    ensures t < |ps[j].looks| && t < |ps[j].adm.threads| && Settled(ps[j].adm.threads[t], ps[j].looks[t], ps[i].adm.on)
    decreases j
  {
    hide Next, Ok, Settled;
    if j - 1 > i {
      SettledRun(ps, ks, bucket, t, i, j - 1);
    } else {
      OkRun(ps, ks, bucket, i);
    }
    OkRun(ps, ks, bucket, j - 1);
    assert Next(ps[j - 1], bucket, ks[j - 1], ps[j]);
    SettledStep(ps[j - 1], bucket, ks[j - 1], ps[j], t, ps[i].adm.on);
  }

  // ---------------------------------------------------------------- main results

  lemma AnswerHolds(ps: seq<State>, ks: seq<Step>, bucket: Bucketing, t: nat, key: Key, i: nat, j: nat, yes: bool)
    requires IsRun(ps, ks, bucket) && j < |ps| && LookedUp(ps, bucket, t, key, i, j, yes)
    ensures yes ==> Ever(ps, key, i, j)
    ensures !yes ==> !Always(ps, key, i, j)
  {
    hide IsRun, RL.AtStart;
    var x: nat, y: nat :| i <= x <= y < j && InSection(ps, bucket, t, key, x, y)
                          && ps[y].reg.readers[t].pc.Ended? && yes == ps[y].reg.readers[t].call.Some?;
    SectionAnswer(ps, ks, bucket, t, key, x, y);
  }

  // The call of thread t that entered in state i is about to return in state j.
  predicate Returns(ps: seq<State>, ks: seq<Step>, t: nat, i: nat, j: nat)
  {
    && IsCall(ps, ks, t, i, j) && j < |ks| && ks[j].Admission? && ks[j].a.Run? && ks[j].a.t == t
    && t < |ps[j].adm.threads| && ps[j].adm.threads[t].pc.Leave?
  }

  lemma NothingFoundWhenOff(ps: seq<State>, ks: seq<Step>, bucket: Bucketing, t: nat, j: nat)
    requires IsRun(ps, ks, bucket) && j < |ps| && t < |ps[j].adm.threads|
    requires ps[j].adm.threads[t].pc == T.Leave(T.NotLookedUp)
    ensures !ps[j].adm.threads[t].found
  {
    AdmissionRuns(ps, ks, bucket, j);
    var parts := AdmParts(ps, ks);
    TS.InvRun(P.Stops(AdmStates(ps), parts), P.Moves(parts), P.Count(parts, j));
    hide IsRun, P.Stops, P.Moves, P.Count;
    assert TS.CallOk(ps[j].adm.now, ps[j].adm.threads[t]);
  }

  lemma ReturnLogs(ps: seq<State>, ks: seq<Step>, bucket: Bucketing, t: nat, i: nat, j: nat)
    requires IsRun(ps, ks, bucket) && Returns(ps, ks, t, i, j)
    ensures var th := ps[j].adm.threads[t];
            ps[j + 1].adm.log == ps[j].adm.log
              + [T.Returned(ps[j].adm.now, t, th.pc.outcome, th.pc.outcome != T.Interrupted && th.found)]
  {
    assert Next(ps[j], bucket, ks[j], ps[j + 1]);
    PartsOfStep(ps[j], bucket, ks[j], ps[j + 1]);
    hide IsRun, Next;
  }

  // The pointer a thread keeps from its last lookup of an original entry.
  lemma PointerIsPristine(ps: seq<State>, ks: seq<Step>, bucket: Bucketing, t: nat, j: nat)
    requires IsRun(ps, ks, bucket) && j < |ps| && t < |ps[j].looks| && ps[j].looks[t].found == Some(true)
    ensures var nr, pristine := ps[j].looks[t].nr, ps[0].reg.pristine;
            && t < |ps[j].reg.readers| && nr < |pristine|
            && ps[j].reg.readers[t].call == Some(pristine[nr]) && pristine[nr] != Wrapper
  {
    OkRun(ps, ks, bucket, j);
    assert ThreadOk(ps[j], t);
    RegistryRuns(ps, ks, bucket, j);
    var parts := RegParts(ps, ks);
    assert P.Stops(RegStates(ps), parts)[0] == ps[0].reg;
    RT.WrapperNeverCallsItself(P.Stops(RegStates(ps), parts), P.Moves(parts), bucket, P.Count(parts, j), t, ps[j].looks[t].nr);
  }

  // The system call is reached exactly if the monitor was on at the entry test, no signal
  // ended the wait, and the call's own lookup kept a pointer, which is then the pristine entry
  // of its number. A number registered all through the call is reached, and one that is
  // reached was registered at some moment of it.
  lemma CallsOriginal(ps: seq<State>, ks: seq<Step>, bucket: Bucketing, t: nat, i: nat, j: nat)
    requires IsRun(ps, ks, bucket) && Returns(ps, ks, t, i, j)
    ensures t < |ps[j].looks| && t < |ps[j].reg.readers| && ps[j].looks[t].nr == ps[i].looks[t].nr
    ensures var nr, pristine, call := ps[i].looks[t].nr, ps[0].reg.pristine, ps[j].reg.readers[t].call;
            var outcome := ps[j].adm.threads[t].pc.outcome;
            var called := ps[i].adm.on && outcome != T.Interrupted && call.Some?;
            && ps[j + 1].adm.log == ps[j].adm.log + [T.Returned(ps[j].adm.now, t, outcome, called)]
            && (called ==> Ever(ps, Sys(nr), i, j) && nr < |pristine| && call.value == pristine[nr] && call.value != Wrapper)
            && (ps[i].adm.on && outcome != T.Interrupted && Always(ps, Sys(nr), i, j) ==> called)
  {
    OkRun(ps, ks, bucket, j);
    HonestRun(ps, ks, bucket, t, i, j);
    assert ThreadOk(ps[j], t);
    SettledRun(ps, ks, bucket, t, i, j);
    ReturnLogs(ps, ks, bucket, t, i, j);
    var l := ps[j].looks[t];
    if ps[i].adm.on {
      AnswerHolds(ps, ks, bucket, t, Sys(l.nr), i, j, l.found.value);
      if l.found.value {
        PointerIsPristine(ps, ks, bucket, t, j);
      }
    } else {
      NothingFoundWhenOff(ps, ks, bucket, t, j);
    }
    hide IsRun, LookedUp, Ever, Always, IsCall, Ok;
  }

  // A caller is let past the tokens unasked only if user id and name were both missing at some
  // moment of the call, and made to take one only if one of them was registered at some moment.
  lemma OnlyRegisteredWait(ps: seq<State>, ks: seq<Step>, bucket: Bucketing, t: nat, i: nat, j: nat)
    requires IsRun(ps, ks, bucket) && Returns(ps, ks, t, i, j) && ps[i].adm.on
    ensures var l := ps[i].looks[t];
            if ps[j].adm.threads[t].pc == T.Leave(T.Unmonitored) then
              !Always(ps, Uid(l.uid), i, j) && !Always(ps, Prog(l.name), i, j)
            else Ever(ps, Uid(l.uid), i, j) || Ever(ps, Prog(l.name), i, j)
  {
    OkRun(ps, ks, bucket, j);
    HonestRun(ps, ks, bucket, t, i, j);
    assert ThreadOk(ps[j], t);
    SettledRun(ps, ks, bucket, t, i, j);
    var l := ps[j].looks[t];
    AnswerHolds(ps, ks, bucket, t, Uid(l.uid), i, j, l.byUid.value);
    if l.byName.Some? {
      AnswerHolds(ps, ks, bucket, t, Prog(l.name), i, j, l.byName.value);
    }
    hide IsRun, LookedUp, Ever, Always, IsCall, Ok;
  }
}
