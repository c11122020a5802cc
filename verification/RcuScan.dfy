// The listing of the system calls (src/throttling_api.c:507-536) while others register and
// deregister: it reads the flags one by one, without the lock.
module RcuScan {
  import opened Rcu
  import opened RcuHeap
  import opened RcuTheorems

  // Scan c started with the step into state a, and was not started again up to state b.
  ghost predicate IsScan(ss: seq<State>, ks: seq<Step>, bucket: Bucketing, c: nat, max: int, a: nat, b: nat)
  {
    && IsRun(ss, ks, bucket) && 0 < a <= b < |ss| && ks[a - 1] == StartScan(c, max)
    && (forall x :: a <= x < b ==> !(ks[x].StartScan? && ks[x].c == c))
  }

  predicate IsFlagged(s: State, nr: nat)
  {
    nr < |s.flags| && s.flags[nr]
  }

  predicate EverFlagged(ss: seq<State>, a: nat, b: nat, nr: nat)
    requires b < |ss|
  {
    exists y :: a <= y <= b && IsFlagged(ss[y], nr)
  }

  predicate AlwaysFlagged(ss: seq<State>, a: nat, b: nat, nr: nat)
    requires b < |ss|
  {
    forall y :: a <= y <= b ==> IsFlagged(ss[y], nr)
  }

  predicate Ascends(numbers: seq<nat>)
  {
    forall i, j :: 0 <= i < j < |numbers| ==> numbers[i] < numbers[j]
  }

  // What the scan has copied so far ascends, keeps to the limit and lies behind it.
  predicate ScanShape(cap: int, c: Scan)
  {
    && Ascends(c.numbers) && (|c.numbers| <= cap || c.numbers == [])
    && (c.Scanning? ==> c.cap == cap && (forall n :: n in c.numbers ==> n < c.nr))
  }

  // All of it was flagged when it was copied.
  predicate ScanSound(ss: seq<State>, a: nat, b: nat, c: Scan)
    requires b < |ss|
  {
    forall n :: n in c.numbers ==> EverFlagged(ss, a, b, n)
  }

  // Unless the limit was reached, no flagged number was passed over.
  ghost predicate ScanComplete(ss: seq<State>, a: nat, b: nat, cap: int, c: Scan)
    requires b < |ss|
  {
    && (c.Scanning? ==> forall n: nat :: n < c.nr && AlwaysFlagged(ss, a, b, n) ==> n in c.numbers)
    && (c.Scanned? && |c.numbers| < cap ==> forall n: nat :: AlwaysFlagged(ss, a, b, n) ==> n in c.numbers)
  }

  // Seeing one state more weakens what was seen throughout, and keeps what was seen once.
  lemma SeenLonger(ss: seq<State>, a: nat, b: nat)
    requires a <= b && b + 1 < |ss|
    ensures forall n: nat :: EverFlagged(ss, a, b, n) ==> EverFlagged(ss, a, b + 1, n)
    ensures forall n: nat :: AlwaysFlagged(ss, a, b + 1, n) ==> AlwaysFlagged(ss, a, b, n) && IsFlagged(ss[b], n)
  {
    forall n: nat | EverFlagged(ss, a, b, n)
      ensures EverFlagged(ss, a, b + 1, n)
    {
      var y :| a <= y <= b && IsFlagged(ss[y], n);
      assert a <= y <= b + 1 && IsFlagged(ss[y], n);
    }
  }

  lemma ShapeStep(flags: seq<bool>, cap: int, c: Scan)
    requires ScanShape(cap, c) && c.Scanning?
    ensures ScanShape(cap, ScanStep(flags, c))
  {
    assert forall i :: 0 <= i < |c.numbers| ==> c.numbers[i] in c.numbers;
  }

  lemma SoundStep(ss: seq<State>, a: nat, b: nat, c: Scan, c': Scan)
    requires a <= b && b + 1 < |ss| && ScanSound(ss, a, b, c)
    requires c' == c || (c.Scanning? && c' == ScanStep(ss[b].flags, c))
    ensures ScanSound(ss, a, b + 1, c')
  {
    SeenLonger(ss, a, b);
    forall n | n in c'.numbers
      ensures EverFlagged(ss, a, b + 1, n)
    {
      assert n in c.numbers || IsFlagged(ss[b], n);
    }
  }

  lemma CompleteStep(ss: seq<State>, a: nat, b: nat, cap: int, c: Scan, c': Scan)
    requires a <= b && b + 1 < |ss| && ScanShape(cap, c) && ScanComplete(ss, a, b, cap, c)
    requires c' == c || (c.Scanning? && c' == ScanStep(ss[b].flags, c))
    ensures ScanComplete(ss, a, b + 1, cap, c')
  {
    SeenLonger(ss, a, b);
    hide AlwaysFlagged, EverFlagged;
  }

  lemma ScansFrame(s: State, bucket: Bucketing, k: Step, c: nat)
    requires Shape(s, bucket) && Enabled(s, k) && c < |s.scans|
    requires !(k.StartScan? && k.c == c)
    ensures var s' := Apply(s, bucket, k);
            |s'.scans| == |s.scans|
            && s'.scans[c] == if k == Step.Scan(c) then ScanStep(s.flags, s.scans[c]) else s.scans[c]
  {
  }

  lemma {:induction false} ScanHolds(ss: seq<State>, ks: seq<Step>, bucket: Bucketing, c: nat, max: int, a: nat, b: nat)
    requires IsScan(ss, ks, bucket, c, max, a, b)
    ensures c < |ss[b].scans|
    ensures var cap, sc := ScanFrom(ss[a - 1], max).cap, ss[b].scans[c];
            ScanShape(cap, sc) && ScanSound(ss, a, b, sc) && ScanComplete(ss, a, b, cap, sc)
    decreases b
  {
    var s, cap := ss[b - 1], ScanFrom(ss[a - 1], max).cap;
    assert Next(s, bucket, ks[b - 1], ss[b]);
    if b > a {
      ScanHolds(ss, ks, bucket, c, max, a, b - 1);
      ScansFrame(s, bucket, ks[b - 1], c);
      hide *;
      if ks[b - 1] == Step.Scan(c) {
        ShapeStep(s.flags, cap, s.scans[c]);
      }
      SoundStep(ss, a, b - 1, s.scans[c], ss[b].scans[c]);
      CompleteStep(ss, a, b - 1, cap, s.scans[c], ss[b].scans[c]);
    }
  }

  // A finished listing ascends and keeps to the limit; every number in it was flagged at some
  // moment of the scan, and every number flagged throughout is in it unless the limit was
  // reached. The limit is the length at the start, if that is smaller.
  lemma ListingSound(ss: seq<State>, ks: seq<Step>, bucket: Bucketing, c: nat, max: int, a: nat, b: nat)
    requires IsScan(ss, ks, bucket, c, max, a, b) && c < |ss[b].scans| && ss[b].scans[c].Scanned?
    ensures var listed, cap := ss[b].scans[c].numbers, if ss[a - 1].sysLen < max then ss[a - 1].sysLen else max;
            && Ascends(listed) && (listed == [] || |listed| <= cap)
            && (forall n: nat :: n in listed ==> EverFlagged(ss, a, b, n))
            && (|listed| < cap ==> forall n: nat :: AlwaysFlagged(ss, a, b, n) ==> n in listed)
  {
    ScanHolds(ss, ks, bucket, c, max, a, b);
  }
}
