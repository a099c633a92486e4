/**
  The checkpoint protocol as a state machine over the disk. Ordinary appends,
  the checkpoint's own steps, every single file deletion and crashes interleave
  freely. Serving starts when the replay of what was read has succeeded.
 */
module Protocol {
  import opened Options
  import opened Records
  import LS = LiveState
  import Replay
  import R = Reader
  import opened CompactionLaws
  import opened LogView

  /** A segment file, named by the LSN of its first record. */
  datatype Segment = Segment(first: nat, recs: seq<Record>)

  /** `torn` says that the last segment ends in a proper prefix of a frame. */
  datatype Disk = Disk(segs: seq<Segment>, torn: bool, files: R.Files, tmps: set<string>)

  /** How far the background checkpoint has come; only one runs at a time. */
  datatype Checkpoint =
    | Idle
    | Begun(b: nat)
    | Derived(b: nat, out: seq<Record>)
    | Written(b: nat, out: seq<Record>, name: string)
    | Renamed(b: nat, name: string)
    | Ended(b: nat, name: string, doomed: set<nat>)

  datatype Phase =
    | Serving(ckpt: Checkpoint)
    | Down
    | Starting(records: seq<Record>, keep: string, doomed: set<nat>)

  /** `history` and `base` are what happened, the rest is what there is. */
  datatype System = System(history: seq<Record>, base: Base, disk: Disk, phase: Phase)

  function Flat(segs: seq<Segment>): seq<Record> {
    if segs == [] then [] else Flat(segs[..|segs| - 1]) + segs[|segs| - 1].recs
  }

  function NextLSN(s: System): nat {
    |s.history| + 1
  }

  // ---- Steps ----

  /** The append itself: the record goes to the end of the last segment. */
  function Extended(segs: seq<Segment>, r: Record): seq<Segment>
    requires segs != []
  {
    var n := |segs| - 1;
    segs[n := segs[n].(recs := segs[n].recs + [r])]
  }

  function Logged(s: System, r: Record): System
    requires s.disk.segs != []
  {
    s.(history := s.history + [r], disk := s.disk.(segs := Extended(s.disk.segs, r)))
  }

  /** A write of the serving path: what is legal, and any ack. */
  ghost predicate Append(s: System, s': System, r: Record) {
    && s.phase.Serving? && s.disk.segs != []
    && r.lsn == NextLSN(s) && !r.op.BeginCheckpoint? && !r.op.EndCheckpoint?
    && LS.Served(LS.Run(LS.NOTHING, s.history), r)
    && s' == Logged(s, r)
  }

  /** The writer opens a new segment; the frames fit, so the last one is not empty. */
  ghost predicate Roll(s: System, s': System) {
    && s.phase.Serving? && s.disk.segs != [] && s.disk.segs[|s.disk.segs| - 1].recs != []
    && s' == s.(disk := s.disk.(segs := s.disk.segs + [Segment(NextLSN(s), [])]))
  }

  ghost predicate Begin(s: System, s': System) {
    && s.phase == Serving(Idle) && s.disk.segs != []
    && s' == Logged(s, Record(NextLSN(s), "", BeginCheckpoint)).(phase := Serving(Begun(NextLSN(s))))
  }

  /** ReadUpTo(b) and CompactRecords, whatever has been appended since. */
  ghost predicate Derive(s: System, s': System, k: nat, out: seq<Record>) {
    && s.phase.Serving? && s.phase.ckpt.Begun?
    && var b, log := s.phase.ckpt.b, Flat(s.disk.segs);
    && R.StopsAfter(log, Some(b), k)
    && Compacts(R.Run(s.disk.files, log[..k]).records, out)
    && s' == s.(phase := Serving(Derived(b, out)))
  }

  /** A UUID: no file of that name exists or was ever named by an END. */
  ghost predicate FreshName(s: System, name: string) {
    && name !in s.disk.files && name !in s.disk.tmps
    && forall i :: 0 <= i < |s.history| && s.history[i].op.EndCheckpoint? ==> s.history[i].op.fileName != name
  }

  ghost predicate WriteTmp(s: System, s': System, name: string) {
    && s.phase.Serving? && s.phase.ckpt.Derived? && FreshName(s, name)
    && var c := s.phase.ckpt;
    s' == s.(disk := s.disk.(tmps := s.disk.tmps + {name}), phase := Serving(Written(c.b, c.out, name)))
  }

  ghost predicate Rename(s: System, s': System, checksum: string) {
    && s.phase.Serving? && s.phase.ckpt.Written?
    && var c := s.phase.ckpt;
    s' == s.(disk := s.disk.(tmps := s.disk.tmps - {c.name},
                             files := s.disk.files[c.name := R.CkptFile(checksum, Some(c.out))]),
             phase := Serving(Renamed(c.b, c.name)))
  }

  /** Segment i has a successor, and that starts at or before lsn. */
  predicate Covered(segs: seq<Segment>, i: int, lsn: nat) {
    0 <= i < |segs| - 1 && segs[i + 1].first <= lsn
  }

  /** The segments that DeleteSegmentsBefore(lsn) picks. */
  function Doomed(segs: seq<Segment>, lsn: nat): set<nat> {
    set i | 0 <= i < |segs| && Covered(segs, i, lsn) :: segs[i].first
  }

  ghost predicate End(s: System, s': System) {
    && s.phase.Serving? && s.phase.ckpt.Renamed? && s.disk.segs != []
    && var c := s.phase.ckpt;
    && c.name in s.disk.files
    && var r := Record(NextLSN(s), "", EndCheckpoint(c.name, s.disk.files[c.name].checksum));
    s' == Logged(s, r).(base := Base(c.b, r.lsn, c.name), phase := Serving(Ended(c.b, c.name, {})))
  }

  /** DeleteSegmentsBefore(b) looks at the segments there are now. */
  ghost predicate PickDoomed(s: System, s': System) {
    && s.phase.Serving? && s.phase.ckpt.Ended?
    && var c := s.phase.ckpt;
    s' == s.(phase := Serving(c.(doomed := Doomed(s.disk.segs, c.b))))
  }

  /** The names still to be swept, and the checkpoint file to be kept, by the checkpoint or at startup. */
  ghost predicate Sweeping(phase: Phase, keep: string, doomed: set<nat>) {
    phase == Starting(if phase.Starting? then phase.records else [], keep, doomed) ||
    (phase.Serving? && phase.ckpt.Ended? && phase.ckpt.name == keep && phase.ckpt.doomed == doomed)
  }

  ghost predicate DeleteSegment(s: System, s': System, i: int, keep: string, doomed: set<nat>) {
    && Sweeping(s.phase, keep, doomed)
    && 0 <= i < |s.disk.segs| && s.disk.segs[i].first in doomed
    && s' == s.(disk := s.disk.(segs := s.disk.segs[..i] + s.disk.segs[i + 1..]))
  }

  ghost predicate DeleteFile(s: System, s': System, name: string, keep: string, doomed: set<nat>) {
    && Sweeping(s.phase, keep, doomed) && name != keep
    && s' == s.(disk := s.disk.(files := s.disk.files - {name}))
  }

  ghost predicate DeleteTmp(s: System, s': System, name: string) {
    && s.phase.Starting?
    && s' == s.(disk := s.disk.(tmps := s.disk.tmps - {name}))
  }

  /** A checkpoint is done, or gives up: "bailing out at any step is safe". */
  ghost predicate GiveUp(s: System, s': System) {
    s.phase.Serving? && s' == s.(phase := Serving(Idle))
  }

  /** A crash; while serving it may leave a torn frame behind. */
  ghost predicate Crash(s: System, s': System, torn: bool) {
    && (torn ==> s.disk.torn || (s.phase.Serving? && s.disk.segs != []))
    && (s.disk.torn ==> torn)
    && s' == s.(disk := s.disk.(torn := torn), phase := Down)
  }

  /** Open and ReadAll: truncate, make the first segment if there is none, scan, and pick what to sweep. */
  ghost predicate Reopen(s: System, s': System) {
    && s.phase.Down?
    && var segs := if s.disk.segs == [] then [Segment(1, [])] else s.disk.segs;
    && var scan := R.Run(s.disk.files, Flat(segs));
    s' == s.(disk := s.disk.(segs := segs, torn := false, files := scan.files),
             phase := Starting(scan.records, scan.name, Doomed(segs, scan.ckptLSN)))
  }

  ghost predicate Serve(s: System, s': System) {
    s.phase.Starting? && Replay.Recovered(s.phase.records).Some? && s' == s.(phase := Serving(Idle))
  }

  datatype Event =
    | AppendEvent(r: Record)
    | RollEvent
    | BeginEvent
    | DeriveEvent(k: nat, out: seq<Record>)
    | WriteTmpEvent(name: string)
    | RenameEvent(checksum: string)
    | EndEvent
    | PickDoomedEvent
    | DeleteSegmentEvent(i: int, keep: string, doomed: set<nat>)
    | DeleteFileEvent(name: string, keep: string, doomed: set<nat>)
    | DeleteTmpEvent(name: string)
    | GiveUpEvent
    | CrashEvent(torn: bool)
    | ReopenEvent
    | ServeEvent

  ghost predicate Next(s: System, s': System, ev: Event) {
    match ev
    case AppendEvent(r) => Append(s, s', r)
    case RollEvent => Roll(s, s')
    case BeginEvent => Begin(s, s')
    case DeriveEvent(k, out) => Derive(s, s', k, out)
    case WriteTmpEvent(name) => WriteTmp(s, s', name)
    case RenameEvent(checksum) => Rename(s, s', checksum)
    case EndEvent => End(s, s')
    case PickDoomedEvent => PickDoomed(s, s')
    case DeleteSegmentEvent(i, keep, doomed) => DeleteSegment(s, s', i, keep, doomed)
    case DeleteFileEvent(name, keep, doomed) => DeleteFile(s, s', name, keep, doomed)
    case DeleteTmpEvent(name) => DeleteTmp(s, s', name)
    case GiveUpEvent => GiveUp(s, s')
    case CrashEvent(torn) => Crash(s, s', torn)
    case ReopenEvent => Reopen(s, s')
    case ServeEvent => Serve(s, s')
  }

  const INIT := System([], NoBase, Disk([], false, map[], {}), Down)

  /** A run: an empty disk, then any number of steps. */
  ghost predicate IsRun(states: seq<System>, events: seq<Event>) {
    && |states| == |events| + 1 && states[0] == INIT
    && forall i :: 0 <= i < |events| ==> Next(states[i], states[i + 1], events[i])
  }
}
