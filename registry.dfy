/**
 * The process-wide job table (`JOBS`) and its only writer, `update_job`.
 * A job record is a dict from field name to value; `update_job` creates the
 * record if needed, sets `status`, merges the given fields and stamps
 * `updated_at` with the current time.
 */
module Registry {
  import opened Wrappers

  /** The values the backend stores in a job record. */
  datatype Value = Text(s: string) | Int(n: int) | Stamp(t: int)

  type Record = map<string, Value>

  /** The record of `id`, or the empty record `update_job` starts from when there is none. */
  function RecordOf(jobs: map<string, Record>, id: string): (r: Record)
    ensures id in jobs ==> r == jobs[id]
    ensures id !in jobs ==> r == map[]
  {
    if id in jobs then jobs[id] else map[]
  }

  /**
   * The record after one `update_job(job_id, status, **fields)` stamped `now`.
   * Python passes `status` positionally, so a caller can never also pass it as
   * a keyword field; were it among `fields`, the later `update` would win.
   */
  function Merged(rec: Record, status: string, fields: Record, now: int): (r: Record)
    ensures r.Keys == rec.Keys + fields.Keys + {"status", "updated_at"}
    ensures "status" !in fields ==> r["status"] == Text(status)
    ensures r["updated_at"] == Stamp(now)
    ensures forall k :: k in fields && k != "updated_at" ==> r[k] == fields[k]
    ensures forall k :: k in rec && k !in fields && k != "status" && k != "updated_at" ==> r[k] == rec[k]
  {
    (rec["status" := Text(status)] + fields)["updated_at" := Stamp(now)]
  }

  /**
   * The job table. Time is an input: the i-th call of `update_job` on
   * this table reads `clock(i)`.
   */
  class JobRegistry {
    var jobs: map<string, Record>
    const clock: nat -> int
    var ticks: nat

    constructor (clock: nat -> int)
      ensures jobs == map[] && this.clock == clock && ticks == 0
    {
      jobs := map[];
      this.clock := clock;
      ticks := 0;
    }

    /** `update_job`: upsert the record of `jobId`; no other record changes. */
    method UpdateJob(jobId: string, status: string, fields: Record)
      requires "status" !in fields
      modifies this
      ensures ticks == old(ticks) + 1
      ensures jobs == old(jobs)[jobId := Merged(RecordOf(old(jobs), jobId), status, fields, clock(old(ticks)))]
      ensures jobs.Keys == old(jobs).Keys + {jobId}
      ensures forall id :: id in old(jobs) && id != jobId ==> jobs[id] == old(jobs)[id]
    {
      var record := if jobId in jobs then jobs[jobId] else map[];
      record := record["status" := Text(status)];
      record := record + fields;
      var now := clock(ticks);
      ticks := ticks + 1;
      record := record["updated_at" := Stamp(now)];
      jobs := jobs[jobId := record];
    }
  }

  /** One `update_job(job_id, status, **fields)` call, as data. */
  datatype Step = Step(status: string, fields: Record)

  /** The job table after one call `s` on record `id` stamped `now`. */
  function Apply(jobs: map<string, Record>, id: string, s: Step, now: int): (r: map<string, Record>)
    ensures r.Keys == jobs.Keys + {id}
    ensures r[id] == Merged(RecordOf(jobs, id), s.status, s.fields, now)
    ensures forall other :: other in jobs && other != id ==> r[other] == jobs[other]
  {
    jobs[id := Merged(RecordOf(jobs, id), s.status, s.fields, now)]
  }

  /** One call together with the time it stamped. */
  datatype Stamped = Stamped(step: Step, now: int)

  /** The calls `steps` made one after the other, the first reading the clock at tick `t0`. */
  function Timed(steps: seq<Step>, clock: nat -> int, t0: nat): (r: seq<Stamped>)
    ensures |r| == |steps|
    ensures forall i :: 0 <= i < |steps| ==> r[i] == Stamped(steps[i], clock(t0 + i))
  {
    seq(|steps|, i requires 0 <= i < |steps| => Stamped(steps[i], clock(t0 + i)))
  }

  lemma TimedAppend(a: seq<Step>, b: seq<Step>, clock: nat -> int, t0: nat)
    ensures Timed(a + b, clock, t0) == Timed(a, clock, t0) + Timed(b, clock, t0 + |a|)
  {
    var l, r := Timed(a + b, clock, t0), Timed(a, clock, t0) + Timed(b, clock, t0 + |a|);
    forall i | 0 <= i < |l|
      ensures l[i] == r[i]
    {
      if i >= |a| {
        var j := i - |a|;
        assert (a + b)[i] == b[j];
        assert t0 + |a| + j == t0 + i;
      }
    }
  }

  /** The job table after the stamped calls `calls` on record `id`. */
  function Replay(jobs: map<string, Record>, id: string, calls: seq<Stamped>): map<string, Record>
  {
    if calls == [] then jobs
    else
      var last := calls[|calls| - 1];
      Apply(Replay(jobs, id, calls[..|calls| - 1]), id, last.step, last.now)
  }

  lemma ReplaySnoc(jobs: map<string, Record>, id: string, calls: seq<Stamped>, c: Stamped)
    ensures Replay(jobs, id, calls + [c]) == Apply(Replay(jobs, id, calls), id, c.step, c.now)
  {
    assert (calls + [c])[..|calls|] == calls;
  }

  /** Replaying two runs of calls one after the other is replaying their concatenation. */
  lemma {:induction false} ReplayAppend(jobs: map<string, Record>, id: string, a: seq<Stamped>, b: seq<Stamped>)
    ensures Replay(jobs, id, a + b) == Replay(Replay(jobs, id, a), id, b)
  {
    if b == [] {
      assert a + b == a;
    } else {
      var b', last := b[..|b| - 1], b[|b| - 1];
      assert a + b == (a + b') + [last];
      assert b == b' + [last];
      calc {
        Replay(jobs, id, a + b);
        Replay(jobs, id, (a + b') + [last]);
        { ReplaySnoc(jobs, id, a + b', last); }
        Apply(Replay(jobs, id, a + b'), id, last.step, last.now);
        { ReplayAppend(jobs, id, a, b'); }
        Apply(Replay(Replay(jobs, id, a), id, b'), id, last.step, last.now);
        { ReplaySnoc(Replay(jobs, id, a), id, b', last); }
        Replay(Replay(jobs, id, a), id, b' + [last]);
      }
    }
  }

  /** `update_job` on one job leaves every other job's record as it was. */
  lemma {:induction false} ReplayFrame(jobs: map<string, Record>, id: string, calls: seq<Stamped>, other: string)
    requires other != id && other in jobs
    ensures other in Replay(jobs, id, calls)
    ensures Replay(jobs, id, calls)[other] == jobs[other]
  {
    if calls != [] {
      ReplayFrame(jobs, id, calls[..|calls| - 1], other);
    }
  }

  /** The `percentage` a client polling the job reads, 0 while none was reported. */
  function PercentageOf(rec: Record): (p: int)
    ensures "percentage" in rec && rec["percentage"].Int? ==> p == rec["percentage"].n
    ensures !("percentage" in rec && rec["percentage"].Int?) ==> p == 0
  {
    if "percentage" in rec && rec["percentage"].Int? then rec["percentage"].n else 0
  }

  /** The percentage a step reports, if it reports one. */
  function Reported(s: Step): Option<int> {
    if "percentage" in s.fields && s.fields["percentage"].Int? then Some(s.fields["percentage"].n) else None
  }

  /** The most recently reported percentage among `steps`, or `p0` when none reports one. */
  function LastReported(steps: seq<Step>, p0: int): int {
    if steps == [] then p0
    else match Reported(steps[|steps| - 1])
      case Some(p) => p
      case None => LastReported(steps[..|steps| - 1], p0)
  }

  /** One call sets the percentage it reports, and keeps the stored one when it reports none. */
  lemma MergedPercentage(rec: Record, s: Step, now: int)
    requires "percentage" in s.fields ==> s.fields["percentage"].Int?
    ensures Reported(s).Some? ==> PercentageOf(Merged(rec, s.status, s.fields, now)) == Reported(s).value
    ensures Reported(s).None? ==> PercentageOf(Merged(rec, s.status, s.fields, now)) == PercentageOf(rec)
  {
    assert "percentage"[0] == 'p' && "updated_at"[0] == 'u' && |"status"| == 6;
  }

  /** The percentage a client reads after a run of calls is the last one any of them reported. */
  lemma {:induction false} ReplayPercentage(jobs: map<string, Record>, id: string, steps: seq<Step>, clock: nat -> int, t0: nat)
    requires forall i :: 0 <= i < |steps| ==> "percentage" in steps[i].fields ==> steps[i].fields["percentage"].Int?
    ensures PercentageOf(RecordOf(Replay(jobs, id, Timed(steps, clock, t0)), id)) == LastReported(steps, PercentageOf(RecordOf(jobs, id)))
  {
    if steps != [] {
      var prefix, last := steps[..|steps| - 1], steps[|steps| - 1];
      ReplayPercentage(jobs, id, prefix, clock, t0);
      ReplayLast(jobs, id, steps, clock, t0);
      MergedPercentage(RecordOf(Replay(jobs, id, Timed(prefix, clock, t0)), id), last, clock(t0 + |steps| - 1));
    }
  }

  /** The record after a run of calls is the last call merged into the record before it. */
  lemma ReplayLast(jobs: map<string, Record>, id: string, steps: seq<Step>, clock: nat -> int, t0: nat)
    requires steps != []
    ensures var last := steps[|steps| - 1];
      var before := RecordOf(Replay(jobs, id, Timed(steps[..|steps| - 1], clock, t0)), id);
      RecordOf(Replay(jobs, id, Timed(steps, clock, t0)), id)
        == Merged(before, last.status, last.fields, clock(t0 + |steps| - 1))
  {
    var calls := Timed(steps, clock, t0);
    TimedPrefix(steps, clock, t0);
    assert calls[|calls| - 1] == Stamped(steps[|steps| - 1], clock(t0 + |steps| - 1));
  }

  /** Dropping the last call drops the last stamped call. */
  lemma TimedPrefix(steps: seq<Step>, clock: nat -> int, t0: nat)
    requires steps != []
    ensures Timed(steps, clock, t0)[..|steps| - 1] == Timed(steps[..|steps| - 1], clock, t0)
  {
  }
}
