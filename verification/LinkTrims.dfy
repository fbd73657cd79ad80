/** A thread takes the tail off its list only when it has no spare element left. */
module LinkTrims {
  import opened LinkWords
  import opened LinkTheorems

  /** Where thread u is and where its free list begins. */
  ghost predicate Kept(s: State, r: State, u: int)
    requires Runs(s, u)
  {
    Runs(r, u) && r.threads[u] == s.threads[u] && r.freeHead[u] == s.freeHead[u]
  }

  lemma UnlinkSpares(s: State, t: int, k: Unlinking, c: Choice, u: int)
    requires Runs(s, t) && Runs(s, u) && u != t
    ensures Kept(s, StepUnlink(s, t, k, c), u)
  {}

  lemma LinkSpares(s: State, t: int, e: int, isNew: bool, k: Linking, u: int)
    requires Runs(s, t) && Runs(s, u) && u != t
    ensures Kept(s, StepLink(s, t, e, isNew, k), u)
  {}

  lemma TrimSpares(s: State, t: int, m: Trimming, c: Choice, u: int)
    requires Runs(s, t) && Runs(s, u) && u != t
    ensures Kept(s, StepTrim(s, t, m, c), u)
  {}

  lemma StepSpares(s: State, t: int, c: Choice, u: int)
    requires Runs(s, t) && Runs(s, u) && u != t
    ensures Kept(s, Step(s, t, c), u)
  {
    match s.threads[t].pc
    case Unlink(k) => UnlinkSpares(s, t, k, c, u);
    case Link(e, isNew, k) => LinkSpares(s, t, e, isNew, k, u);
    case Trim(m) => TrimSpares(s, t, m, c, u);
    case Pool(_) =>
  }

  lemma UnlinkNeverTrims(s: State, t: int, k: Unlinking, c: Choice)
    requires Runs(s, t)
    ensures StepUnlink(s, t, k, c).threads[t].pc.Trim? ==> s.threads[t].pc.Trim?
  {}

  lemma TrimKeepsFree(s: State, t: int, m: Trimming, c: Choice)
    requires Runs(s, t)
    ensures StepTrim(s, t, m, c).freeHead[t] == s.freeHead[t]
  {}

  /** A step brings its thread to unlinkTail exactly when it has looked for a spare element after an
      insertion and found none; and while it is there its free list stays as it is. */
  lemma TrimEnteredIff(s: State, t: int, c: Choice)
    requires Runs(s, t)
    ensures Step(s, t, c).threads[t].pc.Trim? && !s.threads[t].pc.Trim? <==>
              s.threads[t].pc == Pool(CheckFree) && s.freeHead[t] == END
    ensures Step(s, t, c).threads[t].pc.Trim? ==> Step(s, t, c).freeHead[t] == s.freeHead[t]
  {
    match s.threads[t].pc
    case Unlink(k) => UnlinkNeverTrims(s, t, k, c);
    case Trim(m) => TrimKeepsFree(s, t, m, c);
    case _ =>
  }

  ghost predicate Bare(s: State, t: int)
    requires Runs(s, t)
  {
    s.threads[t].pc.Trim? ==> s.freeHead[t] == END
  }

  lemma BareStep(s: State, u: int, c: Choice, t: int)
    requires Runs(s, t) && Runs(s, u) && Bare(s, t)
    ensures Bare(Step(s, u, c), t)
  {
    if u == t { TrimEnteredIff(s, t, c); } else { StepSpares(s, u, c, t); }
  }

  lemma {:induction false} RunBare(s: State, es: seq<Event>, t: int)
    requires Shaped(s) && Legal(es, |s.threads|) && Runs(s, t) && Bare(s, t)
    ensures Bare(Run(s, es), t)
    decreases |es|
  {
    if es != [] {
      var e, before := es[|es| - 1], es[..|es| - 1];
      RunBare(s, before, t);
      BareStep(Run(s, before), e.t, e.c, t);
    }
  }

  /** In every interleaving: a thread that takes the tail off its list has an empty free list. */
  lemma TrimsOnlyWhenBare(n: nat, threads: nat, es: seq<Event>, t: int)
    requires 0 < threads <= n <= END && Legal(es, threads) && 0 <= t < threads
    ensures var s := Run(Start(n, threads), es);
            s.threads[t].pc.Trim? ==> s.freeHead[t] == END && forall F :: FreeAs(s, t, F) ==> F == []
  {
    RunBare(Start(n, threads), es, t);
    var s := Run(Start(n, threads), es);
    if s.threads[t].pc.Trim? { BareReads(s, t); }
  }

  lemma BareReads(s: State, t: int)
    requires Runs(s, t) && s.freeHead[t] == END
    ensures forall F :: FreeAs(s, t, F) ==> F == []
  {
    forall F | FreeAs(s, t, F) ensures F == [] {
      assert F == [] || In(s, F[0]);
    }
  }
}
