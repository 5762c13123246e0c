/** The stabilizer that turns a verdict per sample into a status that moves only on a sustained change. */
module Hysteresis {
  import opened Wrappers
  import opened Quality

  datatype Stab = Stab(stable: Status, candidate: Option<Status>, streak: nat, degrade: int, recover: int)

  function NewStab(degrade: int, recover: int): (r: Stab) { Stab(Unknown, None, 0, degrade, recover) }

  /** Only a strict improvement between two known statuses waits for the recover count. */
  function Need(stable: Status, raw: Status, degrade: int, recover: int): (r: int) {
    if Rank(stable) >= 0 && Rank(raw) >= 0 && Rank(raw) < Rank(stable) then recover else degrade
  }

  function Observe(s: Stab, raw: Status): (s': Stab) {
    if raw == s.stable then s.(candidate := Some(raw), streak := 0)
    else
      var streak := if s.candidate == Some(raw) then s.streak + 1 else 1;
      if streak >= Need(s.stable, raw, s.degrade, s.recover) then s.(stable := raw, candidate := Some(raw), streak := 0)
      else s.(candidate := Some(raw), streak := streak)
  }

  class Stabilizer {
    var stable: Status
    var candidate: Option<Status>
    var streak: nat
    const degrade: int
    const recover: int

    function State(): (r: Stab)
      reads this
    {
      Stab(stable, candidate, streak, degrade, recover)
    }

    constructor (degrade: int, recover: int)
      ensures State() == NewStab(degrade, recover)
    {
      stable, candidate, streak := Unknown, None, 0;
      this.degrade, this.recover := degrade, recover;
    }

    method ObserveOne(raw: Status) returns (now: Status, changed: bool)
      modifies this
      ensures State() == Observe(old(State()), raw)
      ensures now == stable && (changed <==> stable != old(stable))
    {
      if raw == stable {
        candidate, streak := Some(stable), 0;
        return stable, false;
      }
      if candidate == Some(raw) { streak := streak + 1; } else { candidate, streak := Some(raw), 1; }
      var need := degrade;
      if Rank(stable) >= 0 && Rank(raw) >= 0 && Rank(raw) < Rank(stable) { need := recover; }
      if streak >= need {
        stable, candidate, streak := raw, Some(raw), 0;
        return stable, true;
      }
      return stable, false;
    }
  }

  // ------------------------------------------------------------------
  // The reference: look back over every verdict since the last change
  // ------------------------------------------------------------------

  datatype Ref = Ref(stable: Status, since: seq<Status>)

  predicate LastAll(since: seq<Status>, n: nat, v: Status) {
    n <= |since| && forall i :: |since| - n <= i < |since| ==> since[i] == v
  }

  /** A count below one still takes the sample itself. */
  function AtLeastOne(n: int): (r: nat) { if n < 1 then 1 else n }

  function Revise(r: Ref, raw: Status, degrade: int, recover: int): (res: Ref) {
    var since := r.since + [raw];
    if raw != r.stable && LastAll(since, AtLeastOne(Need(r.stable, raw, degrade, recover)), raw) then Ref(raw, [])
    else Ref(r.stable, since)
  }

  function Run(s: Stab, raws: seq<Status>): (r: Stab) {
    if raws == [] then s else Observe(Run(s, raws[..|raws| - 1]), raws[|raws| - 1])
  }

  function RefRun(r: Ref, raws: seq<Status>, degrade: int, recover: int): (res: Ref) {
    if raws == [] then r else Revise(RefRun(r, raws[..|raws| - 1], degrade, recover), raws[|raws| - 1], degrade, recover)
  }

  ghost predicate Sim(s: Stab, r: Ref) {
    && s.stable == r.stable
    && s.streak <= |r.since|
    && (s.streak == 0 ==> r.since == [] || r.since[|r.since| - 1] == s.stable)
    && (s.streak > 0 ==>
          && s.candidate.Some? && s.candidate.value != s.stable
          && LastAll(r.since, s.streak, s.candidate.value)
          && (s.streak < |r.since| ==> r.since[|r.since| - s.streak - 1] != s.candidate.value)
          && s.streak < AtLeastOne(Need(s.stable, s.candidate.value, s.degrade, s.recover)))
    && (s.streak == 0 && s.candidate.Some? ==> s.candidate.value == s.stable)
  }

  lemma StepKeepsSim(s: Stab, r: Ref, raw: Status)
    requires Sim(s, r)
    ensures Sim(Observe(s, raw), Revise(r, raw, s.degrade, s.recover))
  {
    var since := r.since + [raw];
    var streak := if s.candidate == Some(raw) then s.streak + 1 else 1;
    var need := AtLeastOne(Need(s.stable, raw, s.degrade, s.recover));
    if raw != s.stable {
      TrailingRun(r.since, raw, streak);
      assert LastAll(since, need, raw) <==> streak >= need;
    }
    hide Need;
  }

  /** `streak` is the longest run of `raw` ending at the newest verdict. */
  lemma TrailingRun(since: seq<Status>, raw: Status, streak: nat)
    requires 1 <= streak <= |since| + 1 && LastAll(since, streak - 1, raw)
    requires streak <= |since| ==> since[|since| - streak] != raw
    ensures forall n: nat {:trigger LastAll(since + [raw], n, raw)} :: LastAll(since + [raw], n, raw) <==> n <= streak
  {
    var s := since + [raw];
    assert streak < |s| ==> s[|s| - streak - 1] != raw;
  }

  lemma {:induction false} RunKeepsSim(raws: seq<Status>, degrade: int, recover: int)
    ensures Sim(Run(NewStab(degrade, recover), raws), RefRun(Ref(Unknown, []), raws, degrade, recover))
    ensures var s := Run(NewStab(degrade, recover), raws); s.degrade == degrade && s.recover == recover
  {
    if raws != [] {
      var before := raws[..|raws| - 1];
      RunKeepsSim(before, degrade, recover);
      StepKeepsSim(Run(NewStab(degrade, recover), before), RefRun(Ref(Unknown, []), before, degrade, recover), raws[|raws| - 1]);
    }
    hide Sim;
  }

  /** At every sample of every run the status changes to v exactly when v differs from it and has been
      the verdict for the required count of consecutive samples since the last change. */
  lemma ChangesExactlyOnSustained(raws: seq<Status>, raw: Status, degrade: int, recover: int)
    ensures var s := Run(NewStab(degrade, recover), raws);
      var r := RefRun(Ref(Unknown, []), raws, degrade, recover);
      && s.stable == r.stable
      && (Observe(s, raw).stable != s.stable <==>
            raw != s.stable && LastAll(r.since + [raw], AtLeastOne(Need(s.stable, raw, degrade, recover)), raw))
      && Observe(s, raw).stable in {s.stable, raw}
  {
    RunKeepsSim(raws, degrade, recover);
    StepKeepsSim(Run(NewStab(degrade, recover), raws), RefRun(Ref(Unknown, []), raws, degrade, recover), raw);
  }

  /** What the reference looks back over is the verdicts since the last change, nothing else. */
  lemma {:induction false} SinceIsSuffix(raws: seq<Status>, degrade: int, recover: int)
    ensures var since := RefRun(Ref(Unknown, []), raws, degrade, recover).since;
      |since| <= |raws| && since == raws[|raws| - |since|..]
  {
    if raws != [] { SinceIsSuffix(raws[..|raws| - 1], degrade, recover); }
  }

  // ------------------------------------------------------------------
  // How often, and how soon
  // ------------------------------------------------------------------

  function Changes(s: Stab, raws: seq<Status>): (r: nat) {
    if raws == [] then 0
    else
      var before := Run(s, raws[..|raws| - 1]);
      Changes(s, raws[..|raws| - 1]) + if Observe(before, raws[|raws| - 1]).stable != before.stable then 1 else 0
  }

  function Least(degrade: int, recover: int): (r: nat) {
    if AtLeastOne(degrade) < AtLeastOne(recover) then AtLeastOne(degrade) else AtLeastOne(recover)
  }

  lemma ChangeSpendsStreak(s: Stab, raw: Status)
    ensures var s' := Observe(s, raw);
      && s'.degrade == s.degrade && s'.recover == s.recover
      && if s'.stable != s.stable then Least(s.degrade, s.recover) <= s.streak + 1 && s'.streak == 0
         else s'.streak <= s.streak + 1
  {
  }

  lemma {:induction false} ChangesAreRare(raws: seq<Status>, degrade: int, recover: int)
    ensures var s := NewStab(degrade, recover);
      && Changes(s, raws) * Least(degrade, recover) + Run(s, raws).streak <= |raws|
      && Run(s, raws).degrade == degrade && Run(s, raws).recover == recover
  {
    if raws != [] {
      var s, rest := NewStab(degrade, recover), raws[..|raws| - 1];
      ChangesAreRare(rest, degrade, recover);
      ChangeSpendsStreak(Run(s, rest), raws[|raws| - 1]);
      hide Observe, Least;
      OneMore(Changes(s, rest), Least(degrade, recover));
    }
  }

  lemma OneMore(c: nat, m: nat)
    ensures (c + 1) * m == c * m + m
  {
  }

  function Repeated(v: Status, n: nat): (r: seq<Status>) { seq(n, _ => v) }

  /** From any state the status follows once a verdict has been repeated often enough. */
  lemma {:induction false} SustainedVerdictWins(s: Stab, v: Status, n: nat)
    ensures var s' := Run(s, Repeated(v, n));
      && (s'.stable == v || (s'.stable == s.stable && (n > 0 ==> s'.candidate == Some(v) && s'.streak >= n)))
      && s'.degrade == s.degrade && s'.recover == s.recover
      && (n >= AtLeastOne(Need(s.stable, v, s.degrade, s.recover)) ==> s'.stable == v)
  {
    if n > 0 {
      assert Repeated(v, n)[..n - 1] == Repeated(v, n - 1);
      SustainedVerdictWins(s, v, n - 1);
    }
  }

  // ------------------------------------------------------------------
  // Which count applies
  // ------------------------------------------------------------------

  /** A change for the better between two verdicts. */
  predicate Better(from: Status, to: Status) {
    (from == Poor && to in {Good, Warning}) || (from == Warning && to == Good)
  }

  lemma {:induction false} ShortOfNeed(s: Stab, v: Status, n: nat)
    requires s.streak == 0 && v != s.stable && n < AtLeastOne(Need(s.stable, v, s.degrade, s.recover))
    ensures var s' := Run(s, Repeated(v, n)); s' == s.(candidate := s'.candidate, streak := n) && (n > 0 ==> s'.candidate == Some(v))
  {
    if n > 0 {
      assert Repeated(v, n)[..n - 1] == Repeated(v, n - 1) && Repeated(v, n)[n - 1] == v;
      ShortOfNeed(s, v, n - 1);
      hide Need;
    }
  }

  /** From a settled status, n equal verdicts move it exactly when n reaches the recover count for a change
      for the better and the degrade count for any other, first and lost verdicts included. */
  lemma CountsByDirection(s: Stab, v: Status, n: nat)
    requires s.streak == 0 && v != s.stable
    ensures Run(s, Repeated(v, n)).stable == v <==> n >= 1 && n >= if Better(s.stable, v) then s.recover else s.degrade
  {
    SustainedVerdictWins(s, v, n);
    if n < AtLeastOne(Need(s.stable, v, s.degrade, s.recover)) { ShortOfNeed(s, v, n); }
    hide Run, Repeated;
  }
}
