/**
 * The stored SqlJob object as the ordered update table sees it: each entry
 * reads the current job, applies its patch, and the object store keeps the
 * patched job only when the webhook admits it.
 */
module SqlJobStore {
  import opened Wrappers
  import opened SqlJobTypes
  import opened SqlJobWebhook
  import opened Runs

  /** The result of one write against the store. */
  datatype Outcome = Written | Rejected(reasons: seq<Violation>) | AlreadyExists | NotFound

  /**
   * One update entry: patch the current job and keep the result only when
   * the webhook admits the update. A rejected patch leaves the job as it was.
   */
  function PatchStep(s: SqlJobSpec, p: Patch): (SqlJobSpec, Outcome) {
    var n := ApplyPatch(s, p);
    var vs := ValidateUpdate(s, n);
    if vs == [] then (n, Written) else (s, Rejected(vs))
  }

  /**
   * An entry is written exactly when the webhook admits the patched job, a
   * rejected entry reports the webhook's reasons and keeps the job, and a
   * job that creation admits stays admissible.
   */
  lemma PatchStepOutcome(s: SqlJobSpec, p: Patch)
    ensures PatchStep(s, p).1 == Written <==> ValidateUpdate(s, ApplyPatch(s, p)) == []
    ensures PatchStep(s, p).1 != Written ==>
      PatchStep(s, p) == (s, Rejected(ValidateUpdate(s, ApplyPatch(s, p))))
    ensures PatchStep(s, p).1 == Written ==> PatchStep(s, p).0 == ApplyPatch(s, p)
    ensures ValidateCreate(s) == [] ==> ValidateCreate(PatchStep(s, p).0) == []
  {
    var n := ApplyPatch(s, p);
    if ValidateUpdate(s, n) == [] && ValidateCreate(s) == [] {
      UpdatePreservesAdmissibility(s, n);
    }
  }

  /**
   * An ordered run of update entries from job `s`: the job that results and
   * each entry's outcome, one outcome per entry.
   */
  function Replay(s: SqlJobSpec, ps: seq<Patch>): (r: (SqlJobSpec, seq<Outcome>))
    ensures |r.1| == |ps|
  {
    Run(PatchStep, s, ps)
  }

  /**
   * Every outcome of a run is a write or a rejection, and a job that creation
   * admitted stays admissible however many entries run.
   */
  lemma {:induction false} ReplayKeepsAdmissibility(s: SqlJobSpec, ps: seq<Patch>)
    ensures forall i :: 0 <= i < |ps| ==> Replay(s, ps).1[i].Written? || Replay(s, ps).1[i].Rejected?
    ensures ValidateCreate(s) == [] ==> ValidateCreate(Replay(s, ps).0) == []
    decreases |ps|
  {
    if ps != [] {
      var front := ps[..|ps| - 1];
      var prefix := Replay(s, front);
      var step := PatchStep(prefix.0, ps[|ps| - 1]);
      assert Replay(s, ps) == (step.0, prefix.1 + [step.1]);
      ReplayKeepsAdmissibility(s, front);
      PatchStepOutcome(prefix.0, ps[|ps| - 1]);
      forall i | 0 <= i < |ps|
        ensures Replay(s, ps).1[i].Written? || Replay(s, ps).1[i].Rejected?
      {
        if i < |front| {
          assert Replay(s, ps).1[i] == prefix.1[i];
        }
      }
    }
  }

  /** A run whose every entry is rejected leaves the job unchanged. */
  lemma {:induction false} AllRejectedLeavesJob(s: SqlJobSpec, ps: seq<Patch>)
    requires forall i :: 0 <= i < |ps| ==> Replay(s, ps).1[i].Rejected?
    ensures Replay(s, ps).0 == s
    decreases |ps|
  {
    if ps != [] {
      var front := ps[..|ps| - 1];
      var r := Replay(s, front);
      var step := PatchStep(r.0, ps[|ps| - 1]);
      assert Replay(s, ps) == (step.0, r.1 + [step.1]);
      assert step.1 == Replay(s, ps).1[|ps| - 1];
      assert forall i :: 0 <= i < |front| ==> r.1[i] == Replay(s, ps).1[i];
      AllRejectedLeavesJob(s, front);
    }
  }

  /** The object store holding (at most) the one job the table works on. */
  class Store {
    var stored: Option<SqlJobSpec>

    /** Only admitted jobs are ever stored. */
    ghost predicate Valid()
      reads this
    {
      stored.Some? ==> ValidateCreate(stored.value) == []
    }

    constructor ()
      ensures Valid() && stored == None
    {
      stored := None;
    }

    /** Create the job; the webhook decides whether it is stored. */
    method Create(s: SqlJobSpec) returns (o: Outcome)
      requires Valid()
      modifies this
      ensures Valid()
      ensures old(stored).Some? ==> o == AlreadyExists && stored == old(stored)
      ensures old(stored).None? ==> (o == Written <==> ValidateCreate(s) == [])
      ensures old(stored).None? && o == Written ==> stored == Some(s)
      ensures old(stored).None? && o != Written ==> o == Rejected(ValidateCreate(s)) && stored == None
    {
      if stored.Some? {
        o := AlreadyExists;
      } else {
        var vs := ValidateCreate(s);
        if vs == [] {
          stored := Some(s);
          o := Written;
        } else {
          o := Rejected(vs);
        }
      }
    }

    /** Delete the job; deletion is never denied. */
    method Delete()
      modifies this
      ensures Valid() && stored == None
    {
      stored := None;
    }

    /** Read the current job. */
    method Get() returns (s: Option<SqlJobSpec>)
      ensures s == stored
    {
      s := stored;
    }

    /** Patch the current job; the job changes only when the webhook admits the update. */
    method Patch(p: Patch) returns (o: Outcome)
      requires Valid()
      modifies this
      ensures Valid()
      ensures old(stored).None? ==> o == NotFound && stored == None
      ensures old(stored).Some? ==> stored.Some? && (stored.value, o) == PatchStep(old(stored).value, p)
    {
      var current := Get();
      if current.None? {
        o := NotFound;
      } else {
        var s := current.value;
        var n := ApplyPatch(s, p);
        var vs := ValidateUpdate(s, n);
        if vs == [] {
          UpdatePreservesAdmissibility(s, n);
          stored := Some(n);
          o := Written;
        } else {
          o := Rejected(vs);
        }
      }
    }
  }

  /**
   * One create entry: delete whatever job is stored, then create the entry's
   * job. The create succeeds exactly when the webhook admits it.
   */
  method RunCreateEntry(store: Store, s: SqlJobSpec) returns (o: Outcome)
    requires store.Valid()
    modifies store
    ensures store.Valid()
    ensures o == Written <==> Admit(SqlJobWebhook.Create(s)) == Allowed
    ensures o == Written ==> store.stored == Some(s)
    ensures o != Written ==> o == Rejected(ValidateCreate(s)) && store.stored == None
  {
    store.Delete();
    o := store.Create(s);
  }

  /** Run an ordered update table against the stored job, entry by entry. */
  method RunUpdateTable(store: Store, ps: seq<Patch>) returns (outcomes: seq<Outcome>)
    requires store.Valid() && store.stored.Some?
    modifies store
    ensures store.Valid() && store.stored.Some?
    ensures (store.stored.value, outcomes) == Replay(old(store.stored).value, ps)
  {
    ghost var start := store.stored.value;
    outcomes := [];
    var i := 0;
    while i < |ps|
      invariant 0 <= i <= |ps|
      invariant store.Valid() && store.stored.Some?
      invariant (store.stored.value, outcomes) == Replay(start, ps[..i])
    {
      var o := store.Patch(ps[i]);
      assert ps[..i + 1][..i] == ps[..i];
      outcomes := outcomes + [o];
      i := i + 1;
    }
    assert ps[..|ps|] == ps;
  }
}
