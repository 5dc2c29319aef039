/**
 The background writer on the sharded store: internal/cache/async_writer.go over
 internal/cache/sharded.go. Any number of Puts are under way at once, each with its own temp file in
 the shared directory tree, and every event is one step of the writer or one file operation of one
 Put, with its outcome. An event that is not possible changes nothing.
 */
module BlobCache {
  import opened Basics
  import opened Sharded
  import A = AsyncCache

  datatype Config = Config(root: string, capacity: nat, workers: nat)

  /** How far a Put has come; `written` bytes of its data are in its temp file. */
  datatype Stage =
    | Idle
    | HasDir
    | Open(random: string, written: nat)
    | Shut(random: string, written: nat)
    | Removing(random: string, written: nat)

  /** `stages` has an entry for every job whose Put has begun. */
  datatype Cache = Cache(writer: A.State, files: map<string, Bytes>, stages: map<nat, Stage>)

  datatype Event =
    | Writer(e: A.Event)
    | Mkdir(i: nat, ok: bool)
    | Create(i: nat, random: string, ok: bool)
    | Write(i: nat, n: nat)
    | WriteFails(i: nat)
    | CloseTemp(i: nat, ok: bool)
    | Remove(i: nat, ok: bool)
    | Rename(i: nat, ok: bool)

  // ---------- a Put ----------

  function StageOf(c: Cache, i: nat): Stage {
    if i in c.stages then c.stages[i] else Idle
  }

  predicate HasTemp(st: Stage) {
    st.Open? || st.Shut? || st.Removing?
  }

  /** The job is in its call of `Put`, made by a worker, by the caller or by a late caller. */
  predicate InPut(w: A.State, i: nat) {
    i < |w.jobs| && (w.jobs[i].phase.Putting? || w.jobs[i].phase.Late?)
  }

  /** The job's Put can go on from a stage. The empty key has no path. */
  predicate At(c: Cache, i: nat, st: Stage) {
    InPut(c.writer, i) && |c.writer.jobs[i].key| > 0 && StageOf(c, i) == st
  }

  function To(c: Cache, i: nat, st: Stage): Cache {
    c.(stages := c.stages[i := st])
  }

  function PutEvent(w: A.State, i: nat, ok: bool): A.Event {
    if A.At(w, i).Late? then A.LatePut(i, ok) else A.Put(i, ok)
  }

  /** `Put` returns. */
  function Return(cfg: Config, c: Cache, i: nat, ok: bool): Cache {
    To(c, i, Idle).(writer := A.Step(cfg.capacity, c.writer, PutEvent(c.writer, i, ok)))
  }

  /** `os.MkdirAll` */
  function DoMkdir(cfg: Config, c: Cache, i: nat, ok: bool): Cache {
    if !At(c, i, Idle) then c
    else if ok then To(c, i, HasDir)
    else Return(cfg, c, i, false)
  }

  /** `os.CreateTemp`: it never takes a name that is in use, but tries another. */
  function DoCreate(cfg: Config, c: Cache, i: nat, random: string, ok: bool): Cache {
    if !At(c, i, HasDir) then c
    else if !ok then Return(cfg, c, i, false)
    else
      var temp := TempPath(cfg.root, c.writer.jobs[i].key, random);
      if temp in c.files then c else To(c, i, Open(random, 0)).(files := c.files[temp := []])
  }

  /** Some bytes reach the temp file. */
  function DoWrite(cfg: Config, c: Cache, i: nat, n: nat): Cache {
    var st := StageOf(c, i);
    if !st.Open? || !At(c, i, st) || st.written + n > |c.writer.jobs[i].data| then c
    else
      var temp := TempPath(cfg.root, c.writer.jobs[i].key, st.random);
      if temp !in c.files then c
      else
        To(c, i, Open(st.random, st.written + n))
          .(files := c.files[temp := c.files[temp] + c.writer.jobs[i].data[st.written..st.written + n]])
  }

  function DoWriteFails(c: Cache, i: nat): Cache {
    var st := StageOf(c, i);
    if !st.Open? || !At(c, i, st) then c else To(c, i, Removing(st.random, st.written))
  }

  /** `tmp.Close`, once all bytes are written. */
  function DoCloseTemp(c: Cache, i: nat, ok: bool): Cache {
    var st := StageOf(c, i);
    if !st.Open? || !At(c, i, st) || st.written != |c.writer.jobs[i].data| then c
    else To(c, i, if ok then Shut(st.random, st.written) else Removing(st.random, st.written))
  }

  /** `os.Remove`, whose error is ignored, on the way out with an error. */
  function DoRemove(cfg: Config, c: Cache, i: nat, ok: bool): Cache {
    var st := StageOf(c, i);
    if !st.Removing? || !At(c, i, st) then c
    else
      var temp := TempPath(cfg.root, c.writer.jobs[i].key, st.random);
      Return(cfg, c, i, false).(files := if ok then c.files - {temp} else c.files)
  }

  /** `os.Rename`; when it fails the temp file stays behind. */
  function DoRename(cfg: Config, c: Cache, i: nat, ok: bool): Cache {
    var st := StageOf(c, i);
    if !st.Shut? || !At(c, i, st) then c
    else
      var key := c.writer.jobs[i].key;
      var temp := TempPath(cfg.root, key, st.random);
      if ok && temp in c.files then
        Return(cfg, c, i, true).(files := (c.files - {temp})[Path(cfg.root, key) := c.files[temp]])
      else Return(cfg, c, i, false)
  }

  function Step(cfg: Config, c: Cache, e: Event): Cache {
    match e
    case Writer(x) => if x.Put? || x.LatePut? then c else c.(writer := A.Step(cfg.capacity, c.writer, x))
    case Mkdir(i, ok) => DoMkdir(cfg, c, i, ok)
    case Create(i, random, ok) => DoCreate(cfg, c, i, random, ok)
    case Write(i, n) => DoWrite(cfg, c, i, n)
    case WriteFails(i) => DoWriteFails(c, i)
    case CloseTemp(i, ok) => DoCloseTemp(c, i, ok)
    case Remove(i, ok) => DoRemove(cfg, c, i, ok)
    case Rename(i, ok) => DoRename(cfg, c, i, ok)
  }

  /** A run over the files that are there already, and the map they hold. */
  ghost function Run(cfg: Config, files: map<string, Bytes>, es: seq<Event>): Cache {
    if es == [] then Cache(A.Start(cfg.workers, StoreOf(cfg.root, files)), files, map[])
    else Step(cfg, Run(cfg, files, es[..|es| - 1]), es[|es| - 1])
  }

  // ---------- the writer's part of a run ----------

  /** The step of the writer that an event is, if any. */
  function Shown(cfg: Config, c: Cache, e: Event): seq<A.Event> {
    match e
    case Writer(x) => if x.Put? || x.LatePut? then [] else [x]
    case Mkdir(i, ok) => if At(c, i, Idle) && !ok then [PutEvent(c.writer, i, false)] else []
    case Create(i, _, ok) => if At(c, i, HasDir) && !ok then [PutEvent(c.writer, i, false)] else []
    case Remove(i, _) =>
      if StageOf(c, i).Removing? && At(c, i, StageOf(c, i)) then [PutEvent(c.writer, i, false)] else []
    case Rename(i, ok) =>
      var st := StageOf(c, i);
      if !st.Shut? || !At(c, i, st) then []
      else [PutEvent(c.writer, i, ok && TempPath(cfg.root, c.writer.jobs[i].key, st.random) in c.files)]
    case _ => []
  }

  ghost function Trace(cfg: Config, files: map<string, Bytes>, es: seq<Event>): seq<A.Event> {
    if es == [] then []
    else Trace(cfg, files, es[..|es| - 1]) + Shown(cfg, Run(cfg, files, es[..|es| - 1]), es[|es| - 1])
  }

  // ---------- the invariant ----------

  /** A Put under way has a temp file of its own name with the first bytes of its data, all of them before the rename. */
  ghost predicate StageOk(cfg: Config, c: Cache, i: nat)
    requires i in c.stages
  {
    var st := c.stages[i];
    st != Idle ==>
      && At(c, i, st)
      && (HasTemp(st) ==>
            var j := c.writer.jobs[i];
            && st.written <= |j.data|
            && Lookup(c.files, TempPath(cfg.root, j.key, st.random)) == Some(j.data[..st.written])
            && (st.Shut? ==> st.written == |j.data|))
  }

  ghost predicate StagesOk(cfg: Config, c: Cache) {
    forall i :: i in c.stages ==> StageOk(cfg, c, i)
  }

  /** The temp file of a Put under way. */
  function TempOf(cfg: Config, c: Cache, i: nat): Option<string> {
    if HasTemp(StageOf(c, i)) && i < |c.writer.jobs| && |c.writer.jobs[i].key| > 0
    then Some(TempPath(cfg.root, c.writer.jobs[i].key, StageOf(c, i).random)) else None
  }

  ghost predicate Apart(cfg: Config, c: Cache) {
    forall i, j :: i in c.stages && j in c.stages && i != j && TempOf(cfg, c, i).Some? ==>
      TempOf(cfg, c, i) != TempOf(cfg, c, j)
  }

  ghost predicate Inv(cfg: Config, c: Cache) {
    && StagesOk(cfg, c)
    && Apart(cfg, c)
    && Represents(cfg.root, c.files, c.writer.store)
  }
}
