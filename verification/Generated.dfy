/**
 * The generator and the auditor of the file benchmark mean the same attempts (cmd/filebench/workload.go generate,
 * cmd/filebench/audit.go).
 */
module Generated {
  import AuditSpec
  import opened Schedule
  import opened FrameBound

  /** A generated attempt as the auditor names it. */
  function Named(a: Attempt): AuditSpec.Attempt {
    AuditSpec.Attempt(a.key, if a.repeated then 2 else 1)
  }

  /** Whatever is offered is planned. */
  lemma OfferedArePlanned(c: Config, run: AuditSpec.Run, clock: seq<int>, n: nat, a: Attempt)
    requires c.Valid() && n <= run.keys && run.repeatEvery == c.repeatEvery
    requires (forall k | 0 <= k < n :: GroupOf(c, k) < |clock|) && a in Offered(c, clock, n)
    ensures run.Planned(Named(a))
  {
    OfferedAre(c, clock, n, a);
  }

  /** And all that is planned is offered by a generator that is never late. */
  lemma PlannedAreOffered(c: Config, run: AuditSpec.Run, clock: seq<int>, b: AuditSpec.Attempt) returns (a: Attempt)
    requires c.Valid() && run.keys == c.Keys() && run.repeatEvery == c.repeatEvery && run.Planned(b)
    requires forall k | 0 <= k < c.Keys() :: GroupOf(c, k) < |clock| && clock[GroupOf(c, k)] - c.At(k) <= c.maxLag
    ensures Named(a) == b && a in Offered(c, clock, c.Keys())
  {
    hide GroupOf, Config.At, Config.Keys, Offered;
    a := Attempt(b.key, b.choice == 2);
    NeverLate(c, clock, a);
  }

  lemma NeverLate(c: Config, clock: seq<int>, a: Attempt)
    requires c.Valid() && a.key < c.Keys() && (a.repeated ==> c.repeatEvery > 0 && (a.key + 1) % c.repeatEvery == 0)
    requires forall k | 0 <= k < c.Keys() :: GroupOf(c, k) < |clock| && clock[GroupOf(c, k)] - c.At(k) <= c.maxLag
    ensures a in Offered(c, clock, c.Keys())
  {
    hide GroupOf, Config.At, Config.Keys, Offered, SlotOffset;
    AtIsOffset(c, a.key);
    OfferedAre(c, clock, c.Keys(), a);
    assert clock[GroupOf(c, a.key)] - c.At(a.key) <= c.maxLag;
  }
}
