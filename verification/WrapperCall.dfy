// Admission and registries in one run (src/throttling_api.c:670-807): the lookups that
// Throttle takes as one step with free answers are here three read sections over the
// registries of Rcu, and the call goes on with what they found.
module WrapperCall {
  import opened Wrappers
  import opened RcuHeap
  import P = Projection
  import T = Throttle
  import R = Rcu
  import RT = RcuTheorems

  // What a call asks for, and the answers it has so far.
  datatype Look = Look(nr: nat, uid: nat, name: seq<nat>, byUid: Option<bool>, byName: Option<bool>, found: Option<bool>)

  // Thread t reads the registries as reader t; the other readers are queries.
  datatype State = State(adm: T.State, reg: R.State, looks: seq<Look>)

  datatype Step =
    | Enter(t: nat, nr: nat, uid: nat, name: seq<nat>)
    | Admission(a: T.Step)
    | Registry(g: R.Step)
    | Open(t: nat)
    | Close(t: nat)
    | Decide(t: nat)

  predicate Init(p: State)
  {
    && T.Init(p.adm) && R.Init(p.reg)
    && |p.looks| == |p.adm.threads| <= |p.reg.readers|
    && (forall t :: 0 <= t < |p.looks| ==> p.looks[t].byUid == p.looks[t].byName == p.looks[t].found == None)
  }

  predicate AtLookup(p: State, t: nat)
  {
    t < |p.looks| && t < |p.adm.threads| && p.adm.threads[t].pc.Lookup?
  }

  // The user id first (:699), the name only if that was not found (:702-704), then the
  // original entry (:708-718).
  function NextKey(l: Look): Key
  {
    if l.byUid.None? then Uid(l.uid)
    else if !l.byUid.value && l.byName.None? then Prog(l.name)
    else Sys(l.nr)
  }

  function Answered(l: Look, yes: bool): Look
  {
    if l.byUid.None? then l.(byUid := Some(yes))
    else if !l.byUid.value && l.byName.None? then l.(byName := Some(yes))
    else l.(found := Some(yes))
  }

  predicate Need(l: Look)
  {
    l.byUid == Some(true) || l.byName == Some(true)
  }

  // The part each side has in a step.
  function AdmPart(p: State, k: Step): Option<T.Step>
  {
    match k
    case Enter(t, _, _, _) => Some(T.Call(t))
    case Admission(a) => Some(a)
    case Decide(t) =>
      if t < |p.looks| then Some(T.Run(t, Need(p.looks[t]), p.looks[t].found == Some(true))) else None
    case _ => None
  }

  function RegPart(p: State, k: Step): Option<R.Step>
  {
    match k
    case Registry(g) => Some(g)
    case Open(t) => if t < |p.looks| then Some(R.Open(t, R.Find(NextKey(p.looks[t])))) else None
    case Close(t) => Some(R.Close(t))
    case _ => None
  }

  predicate Allowed(p: State, k: Step)
  {
    match k
    case Enter(t, _, _, _) => t < |p.looks|
    case Admission(a) => !a.Call? && !(a.Run? && AtLookup(p, a.t))
    case Registry(g) => g.Open? || g.Close? ==> g.r >= |p.looks|
    case Open(t) => AtLookup(p, t) && p.looks[t].found.None?
    case Close(t) => AtLookup(p, t)
    case Decide(t) => AtLookup(p, t) && p.looks[t].found.Some?
  }

  predicate Enabled(p: State, k: Step)
  {
    && Allowed(p, k)
    && (AdmPart(p, k).Some? ==> T.Enabled(p.adm, AdmPart(p, k).value))
    && (RegPart(p, k).Some? ==> R.Enabled(p.reg, RegPart(p, k).value))
  }

  function NextLooks(p: State, k: Step): seq<Look>
    requires Enabled(p, k)
  {
    match k
    case Enter(t, nr, uid, name) => p.looks[t := Look(nr, uid, name, None, None, None)]
    case Close(t) => p.looks[t := Answered(p.looks[t], p.reg.readers[t].call.Some?)]
    case _ => p.looks
  }

  function Apply(p: State, bucket: Bucketing, k: Step): State
    requires R.Shape(p.reg, bucket) && Enabled(p, k)
  {
    State(if AdmPart(p, k).Some? then T.Apply(p.adm, AdmPart(p, k).value) else p.adm,
          if RegPart(p, k).Some? then R.Apply(p.reg, bucket, RegPart(p, k).value) else p.reg,
          NextLooks(p, k))
  }

  predicate Next(p: State, bucket: Bucketing, k: Step, p': State)
  {
    R.Shape(p.reg, bucket) && Enabled(p, k) && p' == Apply(p, bucket, k)
  }

  ghost predicate IsRun(ps: seq<State>, ks: seq<Step>, bucket: Bucketing)
  {
    && |ps| == |ks| + 1 && Init(ps[0]) && Proper(bucket)
    && (forall i {:trigger ks[i]} :: 0 <= i < |ks| ==> Next(ps[i], bucket, ks[i], ps[i + 1]))
  }

  // ---------------------------------------------------------------- both sides run

  function AdmStates(ps: seq<State>): seq<T.State> { seq(|ps|, i requires 0 <= i < |ps| => ps[i].adm) }

  function RegStates(ps: seq<State>): seq<R.State> { seq(|ps|, i requires 0 <= i < |ps| => ps[i].reg) }

  function AdmParts(ps: seq<State>, ks: seq<Step>): seq<Option<T.Step>>
    requires |ps| == |ks| + 1
  {
    seq(|ks|, i requires 0 <= i < |ks| => AdmPart(ps[i], ks[i]))
  }

  function RegParts(ps: seq<State>, ks: seq<Step>): seq<Option<R.Step>>
    requires |ps| == |ks| + 1
  {
    seq(|ks|, i requires 0 <= i < |ks| => RegPart(ps[i], ks[i]))
  }

  predicate AdmNext(s: T.State, k: T.Step, s': T.State)
  {
    T.Enabled(s, k) && s' == T.Apply(s, k)
  }

  lemma PartsOfStep(p: State, bucket: Bucketing, k: Step, p': State)
    requires Next(p, bucket, k, p')
    ensures if AdmPart(p, k).Some? then AdmNext(p.adm, AdmPart(p, k).value, p'.adm) else p'.adm == p.adm
    ensures if RegPart(p, k).Some? then RT.Next(p.reg, bucket, RegPart(p, k).value, p'.reg) else p'.reg == p.reg
  {
    hide T.Enabled, T.Apply, R.Enabled, R.Apply, R.Shape, Allowed;
  }

  lemma AdmSteps(ps: seq<State>, ks: seq<Step>, bucket: Bucketing)
    requires IsRun(ps, ks, bucket)
    ensures P.Rests(AdmStates(ps), AdmParts(ps, ks))
    ensures forall j :: 0 <= j < |ks| && AdmParts(ps, ks)[j].Some? ==>
              AdmNext(AdmStates(ps)[j], AdmParts(ps, ks)[j].value, AdmStates(ps)[j + 1])
  {
    hide AdmNext, Next, AdmPart;
    forall j | 0 <= j < |ks|
      ensures if AdmPart(ps[j], ks[j]).Some? then AdmNext(ps[j].adm, AdmPart(ps[j], ks[j]).value, ps[j + 1].adm)
              else ps[j + 1].adm == ps[j].adm
    {
      PartsOfStep(ps[j], bucket, ks[j], ps[j + 1]);
    }
  }

  lemma PathOfSteps(ss: seq<T.State>, ks: seq<T.Step>)
    requires |ss| == |ks| + 1 && forall y :: 0 <= y < |ks| ==> AdmNext(ss[y], ks[y], ss[y + 1])
    ensures T.IsPath(ss, ks)
  {
    hide T.Enabled, T.Apply;
    forall y | 0 <= y < |ks|
      ensures T.Enabled(ss[y], ks[y]) && ss[y + 1] == T.Apply(ss[y], ks[y])
    {
      assert AdmNext(ss[y], ks[y], ss[y + 1]);
    }
  }

  // The admission part of a run is a run of Throttle, so all that holds of those holds here.
  lemma AdmissionRuns(ps: seq<State>, ks: seq<Step>, bucket: Bucketing, i: nat)
    requires IsRun(ps, ks, bucket) && i < |ps|
    ensures var parts := AdmParts(ps, ks);
            var ss, n := P.Stops(AdmStates(ps), parts), P.Count(parts, i);
            T.IsRun(ss, P.Moves(parts)) && n < |ss| && ss[n] == ps[i].adm
  {
    AdmSteps(ps, ks, bucket);
    P.Joined(AdmNext, AdmStates(ps), AdmParts(ps, ks));
    P.StopAt(AdmStates(ps), AdmParts(ps, ks), i);
    PathOfSteps(P.Stops(AdmStates(ps), AdmParts(ps, ks)), P.Moves(AdmParts(ps, ks)));
    hide T.IsPath, T.Init, P.Stops, P.Moves, P.Count, Next, AdmNext, AdmParts;
  }

  lemma RegSteps(ps: seq<State>, ks: seq<Step>, bucket: Bucketing)
    requires IsRun(ps, ks, bucket)
    ensures P.Rests(RegStates(ps), RegParts(ps, ks))
    ensures forall j :: 0 <= j < |ks| && RegParts(ps, ks)[j].Some? ==>
              RT.Next(RegStates(ps)[j], bucket, RegParts(ps, ks)[j].value, RegStates(ps)[j + 1])
  {
    hide RT.Next, Next, RegPart;
    forall j | 0 <= j < |ks|
      ensures if RegPart(ps[j], ks[j]).Some? then RT.Next(ps[j].reg, bucket, RegPart(ps[j], ks[j]).value, ps[j + 1].reg)
              else ps[j + 1].reg == ps[j].reg
    {
      PartsOfStep(ps[j], bucket, ks[j], ps[j + 1]);
    }
  }

  // And the registry part is one of Rcu.
  lemma RegistryRuns(ps: seq<State>, ks: seq<Step>, bucket: Bucketing, i: nat)
    requires IsRun(ps, ks, bucket) && i < |ps|
    ensures var parts := RegParts(ps, ks);
            var ss, n := P.Stops(RegStates(ps), parts), P.Count(parts, i);
            RT.IsRun(ss, P.Moves(parts), bucket) && n < |ss| && ss[n] == ps[i].reg
  {
    RegSteps(ps, ks, bucket);
    P.Joined((s: R.State, k: R.Step, s': R.State) => RT.Next(s, bucket, k, s'), RegStates(ps), RegParts(ps, ks));
    P.StopAt(RegStates(ps), RegParts(ps, ks), i);
    hide RT.Next, Next, P.Stops, P.Moves, P.Count, RegParts;
  }
}
