/** Publishing and recovering the per-user key (host-rs/src/identity/store.rs:46-214).

    Any number of processes share one directory. Each system call is one step;
    processes interleave freely, any call may fail, and a process may stop for
    ever after any step. The directory's operations are `create_new`, a hard link
    that never replaces, `rename` and `unlink`. */
module IdentityStore {
  import opened Basics

  /** `Quarantine` names carry the second and the attempt they were reserved in. */
  datatype Name = Path | Tmp(key: nat) | Quarantine(time: nat, attempt: nat)

  /** What a file holds: a complete key, or bytes that are not one. */
  datatype Content = Key(key: nat) | Junk

  /** `used`: every key generated so far; a new key is always another one. */
  datatype World = World(dir: map<Name, nat>, files: seq<Content>, used: set<nat>)

  datatype Fault = Io | Corrupt | Changed | Nothing | TooMany

  type Answer = Result<nat, Fault>

  datatype Job = Load | Replace(time: nat)

  datatype Phase =
    | Checking
    | Reserving(attempt: nat)
    | Renaming(name: Name, file: nat)
    | Undoing(name: Name, file: nat)
    | Looking
    | Reading(file: nat)
    | Creating
    | Writing(key: nat, file: nat, begun: bool)
    | Linking(key: nat, file: nat)
    | Linked(key: nat)
    | LookingAgain(key: nat)
    | ReadingAgain(key: nat, file: nat)
    | Cleaning(key: nat, answer: Answer)
    | Done(answer: Answer)

  /** `aside`: where a recovery has moved the old file to. */
  datatype Process = Process(job: Job, since: nat, phase: Phase, aside: Option<Name>)

  /** `past`: the file at the path before the run and after every step. */
  datatype State = State(world: World, past: seq<Option<nat>>, processes: map<nat, Process>)

  datatype Step = Start(id: nat, job: Job) | Act(id: nat, key: nat) | Fail(id: nat)

  const ATTEMPTS: nat := 1000

  function AtPath(w: World): Option<nat> { if Path in w.dir then Some(w.dir[Path]) else None }

  /** One system call of `p` that works; `key` is what `generate` returns. */
  function Move(w: World, p: Process, key: nat): (World, Process) {
    match p.phase
    case Checking =>
      (w, p.(phase := if Path in w.dir then Reserving(0) else Done(Err(Nothing))))
    case Reserving(attempt) =>
      var name := Quarantine(if p.job.Replace? then p.job.time else 0, attempt);
      if attempt >= ATTEMPTS then (w, p.(phase := Done(Err(TooMany))))
      else if name in w.dir then (w, p.(phase := Reserving(attempt + 1)))
      else (w.(dir := w.dir[name := |w.files|], files := w.files + [Junk]), p.(phase := Renaming(name, |w.files|)))
    case Renaming(name, file) =>
      if Path !in w.dir then (w, p.(phase := Undoing(name, file)))
      else if name in w.dir && w.dir[name] == w.dir[Path] then (w, p.(phase := Looking, aside := Some(name)))
      else (w.(dir := (w.dir - {Path})[name := w.dir[Path]]), p.(phase := Looking, aside := Some(name)))
    case Undoing(name, _) => (w.(dir := w.dir - {name}), p.(phase := Done(Err(Io))))
    case Looking => (w, p.(phase := if Path in w.dir then Reading(w.dir[Path]) else Creating))
    case Reading(file) => (w, p.(phase := Done(Parse(w, file))))
    case Creating =>
      if key in w.used || Tmp(key) in w.dir then (w, p)
      else (World(w.dir[Tmp(key) := |w.files|], w.files + [Junk], w.used + {key}),
        p.(phase := Writing(key, |w.files|, false)))
    case Writing(own, file, begun) =>
      if !begun then (w, p.(phase := Writing(own, file, true)))
      else if file < |w.files| then (w.(files := w.files[file := Key(own)]), p.(phase := Linking(own, file)))
      else (w, p)
    case Linking(own, file) =>
      if Path in w.dir then (w, p.(phase := LookingAgain(own)))
      else if Tmp(own) in w.dir then (w.(dir := w.dir[Path := w.dir[Tmp(own)]]), p.(phase := Linked(own)))
      else (w, p.(phase := Cleaning(own, Err(Io))))
    case Linked(own) => (w, p.(phase := Cleaning(own, Ok(own))))
    case LookingAgain(own) =>
      (w, p.(phase := if Path in w.dir then ReadingAgain(own, w.dir[Path]) else Cleaning(own, Err(Changed))))
    case ReadingAgain(own, file) => (w, p.(phase := Cleaning(own, Parse(w, file))))
    case Cleaning(own, answer) => (w.(dir := w.dir - {Tmp(own)}), p.(phase := Done(answer)))
    case Done(_) => (w, p)
  }

  function Parse(w: World, file: nat): Answer {
    if file < |w.files| && w.files[file].Key? then Ok(w.files[file].key) else Err(Corrupt)
  }

  /** The same call failing. A failed check reads as "there is nothing there", a
      failed rename removes the reserved name, a failed removal is ignored. */
  function Flop(p: Process): Process {
    match p.phase
    case Checking => p.(phase := Done(Err(Nothing)))
    case Renaming(name, file) => p.(phase := Undoing(name, file))
    case Writing(own, _, _) => p.(phase := Cleaning(own, Err(Io)))
    case Linking(own, _) => p.(phase := Cleaning(own, Err(Io)))
    case Linked(own) => p.(phase := Cleaning(own, Err(Io)))
    case LookingAgain(own) => p.(phase := Cleaning(own, Err(Io)))
    case ReadingAgain(own, _) => p.(phase := Cleaning(own, Err(Io)))
    case Cleaning(_, answer) => p.(phase := Done(answer))
    case Done(_) => p
    case _ => p.(phase := Done(Err(Io)))
  }

  function Begin(job: Job, since: nat): Process {
    Process(job, since, if job.Load? then Looking else Checking, None)
  }

  function Do(s: State, step: Step): State {
    match step
    case Start(id, job) =>
      if id in s.processes || |s.past| == 0 then s else s.(processes := s.processes[id := Begin(job, |s.past| - 1)])
    case Act(id, key) =>
      if id !in s.processes then s
      else
        var (w, p) := Move(s.world, s.processes[id], key);
        State(w, s.past + [AtPath(w)], s.processes[id := p])
    case Fail(id) =>
      if id !in s.processes then s else s.(processes := s.processes[id := Flop(s.processes[id])])
  }

  function Run(s: State, steps: seq<Step>): State {
    if steps == [] then s else Do(Run(s, steps[..|steps| - 1]), steps[|steps| - 1])
  }

  /** A directory in any condition: with or without a file at the path, sound or
      corrupt, and with copies and temporaries left behind by earlier processes. */
  ghost predicate Plain(w: World) {
    && (forall name :: name in w.dir ==> w.dir[name] < |w.files|)
    && (forall name :: name in w.dir && name.Tmp? ==> name.key in w.used)
  }

  function Initial(w: World): State { State(w, [AtPath(w)], map[]) }

  // ----- The invariant -----

  /** `file` was at the path at some instant since `since`. */
  ghost predicate Seen(past: seq<Option<nat>>, since: nat, file: nat) {
    exists i :: since <= i < |past| && past[i] == Some(file)
  }

  ghost predicate Published(past: seq<Option<nat>>, file: nat) { Some(file) in past }

  /** `file` is at the path or under a quarantine name. */
  ghost predicate Safe(w: World, file: nat) {
    exists name :: name in w.dir && !name.Tmp? && w.dir[name] == file
  }

  /** The name a process may still write or remove. */
  function Claim(p: Process): Option<Name> {
    match p.phase
    case Renaming(name, _) => Some(name)
    case Undoing(name, _) => Some(name)
    case Writing(own, _, _) => Some(Tmp(own))
    case Linking(own, _) => Some(Tmp(own))
    case Linked(own) => Some(Tmp(own))
    case LookingAgain(own) => Some(Tmp(own))
    case ReadingAgain(own, _) => Some(Tmp(own))
    case Cleaning(own, _) => Some(Tmp(own))
    case _ => None
  }

  /** The file behind that name while nobody else can have seen it. */
  function Private(p: Process): Option<nat> {
    match p.phase
    case Renaming(_, file) => Some(file)
    case Undoing(_, file) => Some(file)
    case Writing(_, file, _) => Some(file)
    case Linking(_, file) => Some(file)
    case _ => None
  }

  ghost predicate Returns(w: World, past: seq<Option<nat>>, since: nat, key: nat) {
    exists file: nat :: Seen(past, since, file) && file < |w.files| && w.files[file] == Key(key)
  }

  ghost predicate Owns(w: World, past: seq<Option<nat>>, p: Process) {
    && (Claim(p).Some? ==> Claim(p).value != Path)
    && (Claim(p).Some? && Claim(p).value.Tmp? ==> Claim(p).value.key in w.used)
    && (Private(p).Some? ==>
         && Claim(p).value in w.dir && w.dir[Claim(p).value] == Private(p).value
         && Private(p).value < |w.files| && !Published(past, Private(p).value))
    && (p.phase.Renaming? || p.phase.Undoing? ==> p.phase.name.Quarantine?)
    && (p.phase.Checking? || p.phase.Reserving? || p.phase.Renaming? || p.phase.Undoing? ==> p.aside == None)
    && (p.phase.Linking? ==> w.files[p.phase.file] == Key(p.phase.key))
  }

  ghost predicate Witnessed(w: World, past: seq<Option<nat>>, p: Process) {
    match p.phase
    case Reading(file) => Seen(past, p.since, file)
    case ReadingAgain(_, file) => Seen(past, p.since, file)
    case Linked(own) => Returns(w, past, p.since, own)
    case Cleaning(_, answer) => answer.Ok? ==> Returns(w, past, p.since, answer.value)
    case Done(answer) => answer.Ok? ==> Returns(w, past, p.since, answer.value)
    case _ => true
  }

  /** What a recovery has moved aside is where it said, and was at the path during the call. */
  ghost predicate Aside(w: World, past: seq<Option<nat>>, p: Process) {
    p.aside.Some? ==>
      && p.aside.value.Quarantine? && p.aside.value in w.dir
      && Seen(past, p.since, w.dir[p.aside.value])
  }

  ghost predicate Fine(w: World, past: seq<Option<nat>>, p: Process) {
    && p.since < |past|
    && Owns(w, past, p) && Witnessed(w, past, p) && Aside(w, past, p)
  }

  ghost predicate Apart(p: Process, q: Process) {
    && (Claim(p).Some? ==> Claim(p) != Claim(q) && Claim(p) != q.aside)
    && (Claim(q).Some? ==> Claim(q) != p.aside)
    && (Private(p).Some? ==> Private(p) != Private(q))
  }

  ghost predicate Stocked(w: World, past: seq<Option<nat>>) {
    && Plain(w) && |past| > 0 && past[|past| - 1] == AtPath(w)
    && forall file: nat :: Published(past, file) ==> file < |w.files| && Safe(w, file)
  }

  ghost predicate Inv(s: State) {
    && Stocked(s.world, s.past)
    && (forall id :: id in s.processes ==> Fine(s.world, s.past, s.processes[id]))
    && (forall a, b :: a in s.processes && b in s.processes && a != b ==> Apart(s.processes[a], s.processes[b]))
  }

  // ----- One step, seen by the process that takes it -----

  lemma SeenLater(past: seq<Option<nat>>, since: nat, file: nat, now: Option<nat>)
    ensures Seen(past, since, file) ==> Seen(past + [now], since, file)
    ensures now == Some(file) && since <= |past| ==> Seen(past + [now], since, file)
  {
    if Seen(past, since, file) {
      var i :| since <= i < |past| && past[i] == Some(file);
      assert (past + [now])[i] == Some(file);
    }
    if now == Some(file) && since <= |past| { assert (past + [now])[|past|] == Some(file); }
  }

  /** How one call changes the directory, as the other processes see it. */
  ghost predicate Modest(w: World, w': World, p: Process, p': Process) {
    && |w.files| <= |w'.files| && w.used <= w'.used
    && (forall file :: 0 <= file < |w.files| && Private(p) != Some(file) ==> w'.files[file] == w.files[file])
    && (forall name :: name in w.dir && name != Path && Claim(p) != Some(name) ==>
          name in w'.dir && w'.dir[name] == w.dir[name])
    && (AtPath(w') == AtPath(w) || AtPath(w') == None || (AtPath(w') == Private(p) && Private(p).Some?))
    && (Claim(p') == Claim(p) || Claim(p') == None
        || (Claim(p').value !in w.dir && (Claim(p').value.Tmp? ==> Claim(p').value.key !in w.used)))
    && (Private(p') == Private(p) || Private(p') == None || Private(p').value >= |w.files|)
    && (p'.aside == p.aside || (p'.aside == Claim(p) && p'.aside.Some?))
  }

  lemma MoveIsModest(w: World, past: seq<Option<nat>>, p: Process, key: nat)
    requires Stocked(w, past) && Fine(w, past, p)
    ensures var (w', p') := Move(w, p, key); Modest(w, w', p, p') && p'.since == p.since && p'.job == p.job
  {
    hide Seen, Returns, Safe, Witnessed, Aside;
  }

  lemma PublishedLater(w: World, past: seq<Option<nat>>, now: Option<nat>, file: nat)
    requires Stocked(w, past)
    ensures Published(past + [now], file) <==> Published(past, file) || now == Some(file)
    ensures AtPath(w) == Some(file) ==> Published(past, file)
  {
  }

  lemma MoveKeepsStock(w: World, past: seq<Option<nat>>, p: Process, key: nat)
    requires Stocked(w, past) && Fine(w, past, p)
    ensures var (w', _) := Move(w, p, key); Stocked(w', past + [AtPath(w')])
  {
    var (w', p') := Move(w, p, key);
    MoveIsModest(w, past, p, key);
    forall file: nat | Published(past + [AtPath(w')], file) ensures file < |w'.files| && Safe(w', file) {
      PublishedLater(w, past, AtPath(w'), file);
      if Published(past, file) {
        MoveKeepsSafe(w, past, p, key, file);
      } else {
        assert Path in w'.dir && w'.dir[Path] == file;
      }
    }
    MoveKeepsPlain(w, past, p, key);
    hide Move, Modest, Safe, Fine;
  }

  lemma MoveKeepsPlain(w: World, past: seq<Option<nat>>, p: Process, key: nat)
    requires Plain(w) && Fine(w, past, p)
    ensures Plain(Move(w, p, key).0)
  {
    hide Seen, Returns, Aside, Witnessed;
  }

  /** A file that has been at the path keeps a name: a rename only gives it another. */
  lemma MoveKeepsSafe(w: World, past: seq<Option<nat>>, p: Process, key: nat, file: nat)
    requires Stocked(w, past) && Fine(w, past, p) && Published(past, file)
    ensures Safe(Move(w, p, key).0, file)
  {
    hide Seen, Returns, Aside, Witnessed;
    var w' := Move(w, p, key).0;
    var name :| name in w.dir && !name.Tmp? && w.dir[name] == file;
    if name == Path && Path !in w'.dir {
      assert p.phase.name in w'.dir && w'.dir[p.phase.name] == file;
    } else {
      assert name in w'.dir && w'.dir[name] == file;
    }
  }

  lemma ReturnsLater(w: World, w': World, past: seq<Option<nat>>, since: nat, key: nat, now: Option<nat>)
    requires Returns(w, past, since, key) && |w.files| <= |w'.files|
    requires forall file: nat :: Published(past, file) && file < |w.files| ==> w'.files[file] == w.files[file]
    ensures Returns(w', past + [now], since, key)
  {
    var file: nat :| Seen(past, since, file) && file < |w.files| && w.files[file] == Key(key);
    SeenLater(past, since, file, now);
    assert Published(past, file);
  }

  lemma MoveKeepsOwns(w: World, past: seq<Option<nat>>, p: Process, key: nat)
    requires Stocked(w, past) && Fine(w, past, p)
    ensures var (w', p') := Move(w, p, key); Owns(w', past + [AtPath(w')], p')
  {
    hide Seen, Returns, Safe;
    var (w', p') := Move(w, p, key);
    if Private(p').Some? { PublishedLater(w, past, AtPath(w'), Private(p').value); }
  }

  lemma MoveKeepsAside(w: World, past: seq<Option<nat>>, p: Process, key: nat)
    requires Stocked(w, past) && Fine(w, past, p)
    ensures var (w', p') := Move(w, p, key); Aside(w', past + [AtPath(w')], p')
  {
    hide Seen, Returns, Safe;
    var (w', p') := Move(w, p, key);
    if p'.aside.Some? && p.aside == p'.aside {
      SeenLater(past, p.since, w.dir[p.aside.value], AtPath(w'));
    } else if p'.aside.Some? {
      NowSeen(past, p.since);
      SeenLater(past, p.since, w.dir[Path], AtPath(w'));
    }
  }

  lemma NowSeen(past: seq<Option<nat>>, since: nat)
    requires since < |past| && past[|past| - 1].Some?
    ensures Seen(past, since, past[|past| - 1].value)
  {
  }

  lemma MoveKeepsWitness(w: World, past: seq<Option<nat>>, p: Process, key: nat)
    requires Stocked(w, past) && Fine(w, past, p)
    ensures var (w', p') := Move(w, p, key); Witnessed(w', past + [AtPath(w')], p')
  {
    var (w', p') := Move(w, p, key);
    var now := AtPath(w');
    MoveIsModest(w, past, p, key);
    hide Safe;
    match p.phase {
      case Looking =>
        if now.Some? { SeenLater(past, p.since, now.value, now); }
      case LookingAgain(_) =>
        if now.Some? { SeenLater(past, p.since, now.value, now); }
      case Reading(file) => SeenLater(past, p.since, file, now);
      case ReadingAgain(_, file) => SeenLater(past, p.since, file, now);
      case Linking(_, file) => SeenLater(past, p.since, file, now);
      case Linked(own) => ReturnsLater(w, w', past, p.since, own, now);
      case Cleaning(_, answer) =>
        if answer.Ok? { ReturnsLater(w, w', past, p.since, answer.value, now); }
      case Done(answer) =>
        if answer.Ok? { ReturnsLater(w, w', past, p.since, answer.value, now); }
      case _ =>
    }
  }

  // ----- One step, seen by everyone else -----

  /** Another process's call leaves what `q` relies on in place. */
  lemma OthersKeepFine(w: World, w': World, past: seq<Option<nat>>, p: Process, p': Process, q: Process)
    requires Stocked(w, past) && Modest(w, w', p, p') && Fine(w, past, q) && Fine(w, past, p) && Apart(p, q)
    ensures Fine(w', past + [AtPath(w')], q)
  {
    OthersKeepOwns(w, w', past, p, p', q);
    var now := AtPath(w');
    match q.phase {
      case Reading(file) => SeenLater(past, q.since, file, now);
      case ReadingAgain(_, file) => SeenLater(past, q.since, file, now);
      case Linked(own) => ReturnsLater(w, w', past, q.since, own, now);
      case Cleaning(_, answer) =>
        if answer.Ok? { ReturnsLater(w, w', past, q.since, answer.value, now); }
      case Done(answer) =>
        if answer.Ok? { ReturnsLater(w, w', past, q.since, answer.value, now); }
      case _ =>
    }
    if q.aside.Some? { SeenLater(past, q.since, w.dir[q.aside.value], now); }
  }

  lemma OthersKeepOwns(w: World, w': World, past: seq<Option<nat>>, p: Process, p': Process, q: Process)
    requires Stocked(w, past) && Modest(w, w', p, p') && Owns(w, past, q) && Apart(p, q)
    ensures Owns(w', past + [AtPath(w')], q)
  {
    if Private(q).Some? { PublishedLater(w, past, AtPath(w'), Private(q).value); }
  }

  /** Names and files stay apart: what a call claims anew, nobody else has. */
  lemma StaysApart(w: World, w': World, past: seq<Option<nat>>, p: Process, p': Process, q: Process)
    requires Modest(w, w', p, p') && Fine(w, past, p) && Fine(w, past, q) && Apart(p, q)
    ensures Apart(p', q)
  {
    hide Seen, Returns;
  }

  lemma FlopKeepsFine(w: World, past: seq<Option<nat>>, p: Process)
    requires Fine(w, past, p)
    ensures Fine(w, past, Flop(p)) && Flop(p).since == p.since && Flop(p).job == p.job
    ensures Claim(Flop(p)) == Claim(p) || Claim(Flop(p)) == None
    ensures Private(Flop(p)) == Private(p) || Private(Flop(p)) == None
    ensures Flop(p).aside == p.aside
  {
    hide Seen, Returns;
  }

  lemma ActKeeps(s: State, id: nat, key: nat)
    requires Inv(s) && id in s.processes
    ensures Inv(Do(s, Act(id, key)))
  {
    hide Stocked, Fine, Apart, Modest, Move;
    var w, past, p := s.world, s.past, s.processes[id];
    var (w', p') := Move(w, p, key);
    var s' := Do(s, Act(id, key));
    MoveIsModest(w, past, p, key);
    MoveKeepsStock(w, past, p, key);
    MoveKeepsFine(w, past, p, key);
    forall other | other in s'.processes ensures Fine(s'.world, s'.past, s'.processes[other]) {
      if other != id { OthersKeepFine(w, w', past, p, p', s.processes[other]); }
    }
    forall a, b | a in s'.processes && b in s'.processes && a != b ensures Apart(s'.processes[a], s'.processes[b]) {
      if a == id { StaysApart(w, w', past, p, p', s.processes[b]); }
      if b == id {
        StaysApart(w, w', past, p, p', s.processes[a]);
        ApartBothWays(p', s.processes[a]);
      }
    }
  }

  lemma ApartBothWays(p: Process, q: Process)
    requires Apart(p, q)
    ensures Apart(q, p)
  {
  }

  lemma MoveKeepsFine(w: World, past: seq<Option<nat>>, p: Process, key: nat)
    requires Stocked(w, past) && Fine(w, past, p)
    ensures var (w', p') := Move(w, p, key); Fine(w', past + [AtPath(w')], p')
  {
    MoveKeepsOwns(w, past, p, key);
    MoveKeepsAside(w, past, p, key);
    MoveKeepsWitness(w, past, p, key);
    MoveIsModest(w, past, p, key);
    hide Move, Owns, Aside, Witnessed, Stocked, Modest;
  }

  lemma FailKeeps(s: State, id: nat)
    requires Inv(s) && id in s.processes
    ensures Inv(Do(s, Fail(id)))
  {
    hide Stocked, Fine, Flop;
    FlopKeepsFine(s.world, s.past, s.processes[id]);
  }

  lemma StartKeeps(s: State, id: nat, job: Job)
    requires Inv(s) && id !in s.processes
    ensures Inv(Do(s, Start(id, job)))
  {
  }

  lemma StepKeeps(s: State, step: Step)
    requires Inv(s)
    ensures Inv(Do(s, step))
  {
    hide Inv;
    match step {
      case Start(id, job) => if id !in s.processes { StartKeeps(s, id, job); }
      case Act(id, key) => if id in s.processes { ActKeeps(s, id, key); }
      case Fail(id) => if id in s.processes { FailKeeps(s, id); }
    }
  }

  lemma {:induction false} RunKeeps(s: State, steps: seq<Step>)
    requires Inv(s)
    ensures Inv(Run(s, steps))
  {
    hide Inv, Do;
    if steps != [] {
      RunKeeps(s, steps[..|steps| - 1]);
      StepKeeps(Run(s, steps[..|steps| - 1]), steps[|steps| - 1]);
    }
  }

  // ----- Main results -----

  lemma {:induction false} RunConcat(s: State, a: seq<Step>, b: seq<Step>)
    ensures Run(s, a + b) == Run(Run(s, a), b)
    decreases |b|
  {
    if b == [] {
      assert a + b == a;
    } else {
      RunConcat(s, a, b[..|b| - 1]);
      assert (a + b)[..|a + b| - 1] == a + b[..|b| - 1];
    }
  }

  lemma Reachable(w: World, steps: seq<Step>)
    requires Plain(w)
    ensures Inv(Run(Initial(w), steps))
  {
    assert Inv(Initial(w)) by {
      if Path in w.dir { assert Safe(w, w.dir[Path]); }
    }
    RunKeeps(Initial(w), steps);
  }

  /** A published file's bytes never change again. */
  lemma StepSealed(s: State, step: Step, file: nat)
    requires Inv(s) && Published(s.past, file)
    ensures var s' := Do(s, step);
            Published(s'.past, file) && file < |s'.world.files| && s'.world.files[file] == s.world.files[file]
  {
    if step.Act? && step.id in s.processes {
      var p := s.processes[step.id];
      MoveIsModest(s.world, s.past, p, step.key);
      hide Move, Apart;
      PublishedLater(s.world, s.past, AtPath(Move(s.world, p, step.key).0), file);
    }
  }

  lemma {:induction false} RunSealed(s: State, steps: seq<Step>, file: nat)
    requires Inv(s) && Published(s.past, file)
    ensures var s' := Run(s, steps);
            && Inv(s') && Published(s'.past, file) && file < |s.world.files| && file < |s'.world.files|
            && s'.world.files[file] == s.world.files[file]
  {
    RunKeeps(s, steps);
    hide Do;
    if steps != [] {
      RunSealed(s, steps[..|steps| - 1], file);
      StepSealed(Run(s, steps[..|steps| - 1]), steps[|steps| - 1], file);
    }
  }

  /** MAIN RESULT: with any number of launches and recoveries interleaved in any
      way, whatever is at the path at some instant keeps its bytes and is, at every
      later instant, still at the path or under a quarantine name. */
  lemma NothingIsLost(w: World, before: seq<Step>, after: seq<Step>)
    requires Plain(w)
    requires AtPath(Run(Initial(w), before).world).Some?
    ensures var then_, now := Run(Initial(w), before), Run(Initial(w), before + after);
            var file := AtPath(then_.world).value;
            && file < |then_.world.files| && file < |now.world.files|
            && now.world.files[file] == then_.world.files[file]
            && exists name :: name in now.world.dir && !name.Tmp? && now.world.dir[name] == file
  {
    Reachable(w, before);
    RunConcat(Initial(w), before, after);
    var then_ := Run(Initial(w), before);
    var file := AtPath(then_.world).value;
    assert Published(then_.past, file);
    RunSealed(then_, after, file);
    assert Safe(Run(then_, after).world, file);
  }

  /** MAIN RESULT: a launch that succeeds returns a complete key whose file was at
      the path at some instant between the launch's start and now. */
  lemma LoadsReturnWhatWasThere(w: World, steps: seq<Step>, id: nat)
    requires Plain(w) && id in Run(Initial(w), steps).processes
    requires Run(Initial(w), steps).processes[id].phase.Done? && Run(Initial(w), steps).processes[id].phase.answer.Ok?
    ensures var s := Run(Initial(w), steps);
            var p := s.processes[id];
            exists file: nat :: Seen(s.past, p.since, file) && file < |s.world.files|
              && s.world.files[file] == Key(p.phase.answer.value)
  {
    hide Run;
    Reachable(w, steps);
    var s := Run(Initial(w), steps);
    assert Fine(s.world, s.past, s.processes[id]);
    assert Returns(s.world, s.past, s.processes[id].since, s.processes[id].phase.answer.value);
  }

  /** A recovery that has renamed the old file reports a quarantine name which holds,
      from then on, a file that was at the path during the recovery. */
  lemma RecoverySetsAside(w: World, before: seq<Step>, after: seq<Step>, id: nat)
    requires Plain(w) && id in Run(Initial(w), before).processes
    requires Run(Initial(w), before).processes[id].aside.Some?
    ensures var then_, now := Run(Initial(w), before), Run(Initial(w), before + after);
            var name := then_.processes[id].aside.value;
            && name.Quarantine? && name in then_.world.dir && name in now.world.dir
            && now.world.dir[name] == then_.world.dir[name]
            && Seen(then_.past, then_.processes[id].since, then_.world.dir[name])
  {
    RunConcat(Initial(w), before, after);
    hide Run;
    Reachable(w, before);
    var then_ := Run(Initial(w), before);
    assert Fine(then_.world, then_.past, then_.processes[id]);
    AsideStays(then_, after, id);
  }

  lemma AsideStep(s: State, step: Step, id: nat)
    requires Inv(s) && id in s.processes && s.processes[id].aside.Some?
    ensures var s' := Do(s, step);
            var name := s.processes[id].aside.value;
            && id in s'.processes && s'.processes[id].aside == Some(name)
            && name in s.world.dir && name in s'.world.dir && s'.world.dir[name] == s.world.dir[name]
  {
    var p := s.processes[id];
    assert Fine(s.world, s.past, p);
    if step.Act? && step.id in s.processes {
      var actor := s.processes[step.id];
      assert step.id != id ==> Apart(actor, p);
      assert Fine(s.world, s.past, actor);
      MoveIsModest(s.world, s.past, actor, step.key);
      OwnAside(s.world, s.past, p, step.key);
      hide Move, Seen;
    }
  }

  lemma OwnAside(w: World, past: seq<Option<nat>>, p: Process, key: nat)
    requires Fine(w, past, p) && p.aside.Some?
    ensures Claim(p) != p.aside && Move(w, p, key).1.aside == p.aside
  {
  }

  lemma {:induction false} AsideStays(s: State, steps: seq<Step>, id: nat)
    requires Inv(s) && id in s.processes && s.processes[id].aside.Some?
    ensures var s' := Run(s, steps);
            var name := s.processes[id].aside.value;
            && Inv(s') && id in s'.processes && s'.processes[id].aside == Some(name)
            && name in s.world.dir && name in s'.world.dir && s'.world.dir[name] == s.world.dir[name]
  {
    RunKeeps(s, steps);
    hide Do, Inv;
    if steps != [] {
      AsideStays(s, steps[..|steps| - 1], id);
      AsideStep(Run(s, steps[..|steps| - 1]), steps[|steps| - 1], id);
    } else {
      AsideStep(s, Fail(id), id);
    }
  }

  // ----- First launches -----

  /** Nobody asks for a recovery. */
  ghost predicate OnlyLaunches(steps: seq<Step>) {
    forall i :: 0 <= i < |steps| && steps[i].Start? ==> steps[i].job.Load?
  }

  ghost predicate NothingFails(steps: seq<Step>) {
    forall i :: 0 <= i < |steps| ==> !steps[i].Fail?
  }

  /** Once something is at the path it stays, and nobody is recovering. `sound`:
      the path was free or held a key; `calm`: no call has failed. */
  ghost predicate Settled(s: State, sound: bool, calm: bool) {
    && (forall i :: 0 <= i < |s.past| && s.past[i].Some? ==> s.past[i] == AtPath(s.world))
    && (forall id :: id in s.processes ==> Launching(s.world, s.processes[id], sound, calm))
    && (sound ==> Sound(s.world))
  }

  ghost predicate Sound(w: World) {
    Path in w.dir ==> w.dir[Path] < |w.files| && w.files[w.dir[Path]].Key?
  }

  ghost predicate Launching(w: World, p: Process, sound: bool, calm: bool) {
    && p.job.Load? && p.aside == None
    && !p.phase.Checking? && !p.phase.Reserving? && !p.phase.Renaming? && !p.phase.Undoing?
    && (p.phase.LookingAgain? ==> Path in w.dir)
    && (p.phase.Cleaning? || p.phase.Done? ==>
          && (p.phase.answer.Ok? ==> Path in w.dir)
          && (p.phase.answer.Err? ==> p.phase.answer.error == Io || (p.phase.answer.error == Corrupt && !sound))
          && (calm && sound ==> p.phase.answer.Ok?))
    && (p.phase.Linked? || p.phase.Reading? || p.phase.ReadingAgain? ==> Path in w.dir)
  }

  /** Nothing but a recovery takes a file away from the path. */
  lemma LaunchMove(w: World, past: seq<Option<nat>>, p: Process, key: nat, sound: bool, calm: bool)
    requires Stocked(w, past) && Fine(w, past, p) && Launching(w, p, sound, calm) && (sound ==> Sound(w))
    requires sound && p.phase.Reading? ==> Path in w.dir && w.dir[Path] == p.phase.file
    requires sound && p.phase.ReadingAgain? ==> Path in w.dir && w.dir[Path] == p.phase.file
    ensures var (w', p') := Move(w, p, key);
            && Launching(w', p', sound, calm) && (sound ==> Sound(w'))
            && (Path in w.dir ==> Path in w'.dir && w'.dir[Path] == w.dir[Path])
  {
    hide Seen, Returns, Safe;
  }

  lemma StillLaunching(w: World, w': World, q: Process, sound: bool, calm: bool)
    requires Launching(w, q, sound, calm) && (Path in w.dir ==> Path in w'.dir)
    ensures Launching(w', q, sound, calm)
  {
  }

  /** What a launch has seen at the path is still there. */
  lemma SeenIsThere(s: State, since: nat, file: nat, sound: bool, calm: bool)
    requires Settled(s, sound, calm) && Seen(s.past, since, file)
    ensures Path in s.world.dir && s.world.dir[Path] == file
  {
  }

  lemma LaunchAct(s: State, id: nat, key: nat, sound: bool, calm: bool)
    requires Inv(s) && Settled(s, sound, calm) && id in s.processes
    ensures Settled(Do(s, Act(id, key)), sound, calm)
  {
    hide Move, Launching, Sound, Stocked, Apart;
    var w, past, p := s.world, s.past, s.processes[id];
    var (w', p') := Move(w, p, key);
    assert Fine(w, past, p);
    if p.phase.Reading? { SeenIsThere(s, p.since, p.phase.file, sound, calm); }
    if p.phase.ReadingAgain? { SeenIsThere(s, p.since, p.phase.file, sound, calm); }
    LaunchMove(w, past, p, key, sound, calm);
    var s' := Do(s, Act(id, key));
    forall other | other in s'.processes ensures Launching(w', s'.processes[other], sound, calm) {
      if other != id { StillLaunching(w, w', s.processes[other], sound, calm); }
    }
  }

  lemma LaunchStep(s: State, step: Step, sound: bool, calm: bool)
    requires Inv(s) && Settled(s, sound, calm)
    requires step.Start? ==> step.job.Load?
    requires calm ==> !step.Fail?
    ensures Settled(Do(s, step), sound, calm)
  {
    if step.Act? {
      if step.id in s.processes { LaunchAct(s, step.id, step.key, sound, calm); }
    } else {
      hide Inv, Move, Sound;
    }
  }

  lemma {:induction false} LaunchRun(w: World, steps: seq<Step>, sound: bool, calm: bool)
    requires Plain(w) && OnlyLaunches(steps)
    requires sound && Path in w.dir ==> w.files[w.dir[Path]].Key?
    requires calm ==> NothingFails(steps)
    ensures Settled(Run(Initial(w), steps), sound, calm)
  {
    hide Do, Settled, Inv;
    if steps != [] {
      var front, last := steps[..|steps| - 1], steps[|steps| - 1];
      assert OnlyLaunches(front);
      assert NothingFails(steps) ==> NothingFails(front);
      LaunchRun(w, front, sound, calm);
      Reachable(w, front);
      LaunchStep(Run(Initial(w), front), last, sound, calm);
    } else {
      InitialSettled(w, sound, calm);
    }
  }

  lemma InitialSettled(w: World, sound: bool, calm: bool)
    requires Plain(w)
    requires sound && Path in w.dir ==> w.files[w.dir[Path]].Key?
    ensures Settled(Run(Initial(w), []), sound, calm)
  {
  }

  /** MAIN RESULT: however many first launches race, every one that succeeds returns
      the same identity, and that identity is the one stored at the path. */
  lemma FirstLaunchesAgree(w: World, steps: seq<Step>, a: nat)
    requires Plain(w) && OnlyLaunches(steps) && a in Run(Initial(w), steps).processes
    requires Run(Initial(w), steps).processes[a].phase.Done? && Run(Initial(w), steps).processes[a].phase.answer.Ok?
    ensures var s := Run(Initial(w), steps);
            && Path in s.world.dir && s.world.dir[Path] < |s.world.files|
            && s.world.files[s.world.dir[Path]] == Key(s.processes[a].phase.answer.value)
  {
    LoadsReturnWhatWasThere(w, steps, a);
    LaunchRun(w, steps, false, false);
    hide Run;
  }

  /** MAIN RESULT: when the path is free or holds a sound key and no system call
      fails, no launch fails either, whatever the interleaving; with failing calls
      the only error is the failed call itself. In particular "changed during
      creation" is never reported. */
  lemma OnlyFailuresFail(w: World, steps: seq<Step>, id: nat)
    requires Plain(w) && OnlyLaunches(steps) && id in Run(Initial(w), steps).processes
    requires Path in w.dir ==> w.files[w.dir[Path]].Key?
    requires Run(Initial(w), steps).processes[id].phase.Done?
    ensures var answer := Run(Initial(w), steps).processes[id].phase.answer;
            && (NothingFails(steps) ==> answer.Ok?)
            && (answer.Err? ==> answer.error == Io)
  {
    LaunchRun(w, steps, true, false);
    if NothingFails(steps) { LaunchRun(w, steps, true, true); }
    hide Run;
  }

  // ----- One process that nobody disturbs -----

  /** The directory and the process after `n` calls that work, `key` being generated. */
  function Calls(w: World, p: Process, key: nat, n: nat): (World, Process) {
    if n == 0 then (w, p)
    else
      var (before, so) := Calls(w, p, key, n - 1);
      Move(before, so, key)
  }

  lemma {:induction false} CallsFollow(w: World, p: Process, key: nat, m: nat, n: nat)
    ensures var (mid, so) := Calls(w, p, key, m); Calls(w, p, key, m + n) == Calls(mid, so, key, n)
  {
    hide Move;
    if n > 0 { CallsFollow(w, p, key, m, n - 1); }
  }

  /** A launch reads what is there in two calls, and otherwise stores the key it made in
      seven, leaving nothing else behind. */
  lemma LaunchFinishes(w: World, p: Process, key: nat)
    requires Plain(w) && p.phase.Looking?
    ensures Path in w.dir ==>
              Calls(w, p, key, 2)
              == (w, p.(phase := Done(match w.files[w.dir[Path]] case Key(k) => Ok(k) case Junk => Err(Corrupt))))
    ensures Path !in w.dir && key !in w.used ==>
              Calls(w, p, key, 7)
              == (World(w.dir[Path := |w.files|], w.files + [Key(key)], w.used + {key}), p.(phase := Done(Ok(key))))
  {
    var s1 := Move(w, p, key);
    assert Calls(w, p, key, 0) == (w, p);
    assert Calls(w, p, key, 1) == s1;
    var s2 := Move(s1.0, s1.1, key);
    assert Calls(w, p, key, 2) == s2;
    if Path !in w.dir && key !in w.used {
      assert Tmp(key) !in w.dir;
      var s3 := Move(s2.0, s2.1, key);
      var s4 := Move(s3.0, s3.1, key);
      var s5 := Move(s4.0, s4.1, key);
      var s6 := Move(s5.0, s5.1, key);
      var s7 := Move(s6.0, s6.1, key);
      Seven(w, p, key);
      var full := World(w.dir[Tmp(key) := |w.files|], w.files + [Key(key)], w.used + {key});
      assert s4.0.files == full.files;
      assert s5 == (full.(dir := full.dir[Path := |w.files|]), p.(phase := Linked(key)));
      assert s7.0.dir == w.dir[Path := |w.files|];
    }
  }

  lemma Seven(w: World, p: Process, key: nat)
    ensures var s2 := Calls(w, p, key, 2);
            var s3 := Move(s2.0, s2.1, key);
            var s4 := Move(s3.0, s3.1, key);
            var s5 := Move(s4.0, s4.1, key);
            var s6 := Move(s5.0, s5.1, key);
            Calls(w, p, key, 7) == Move(s6.0, s6.1, key)
  {
    hide Move;
    assert Calls(w, p, key, 3) == Move(Calls(w, p, key, 2).0, Calls(w, p, key, 2).1, key);
    assert Calls(w, p, key, 4) == Move(Calls(w, p, key, 3).0, Calls(w, p, key, 3).1, key);
    assert Calls(w, p, key, 5) == Move(Calls(w, p, key, 4).0, Calls(w, p, key, 4).1, key);
    assert Calls(w, p, key, 6) == Move(Calls(w, p, key, 5).0, Calls(w, p, key, 5).1, key);
  }

  /** A recovery counts its way to the first free name of its second. */
  lemma {:induction false} CountsToTheFreeName(w: World, p: Process, key: nat, time: nat, free: nat)
    requires p.job == Replace(time) && p.phase == Reserving(0) && free < 1000
    requires forall a :: 0 <= a < free ==> Quarantine(time, a) in w.dir
    ensures Calls(w, p, key, free) == (w, p.(phase := Reserving(free)))
  {
    if free > 0 { CountsToTheFreeName(w, p, key, time, free - 1); }
  }

  /** MAIN RESULT: undisturbed, a recovery that finds a file at the path and one of its
      thousand names free finishes: the file is under the first free name, the new key at
      the path, everything else as it was. */
  lemma RecoveryFinishes(w: World, p: Process, key: nat, time: nat, free: nat)
    requires Plain(w) && p.job == Replace(time) && p.phase.Checking? && Path in w.dir && key !in w.used
    requires free < 1000 && Quarantine(time, free) !in w.dir
    requires forall a :: 0 <= a < free ==> Quarantine(time, a) in w.dir
    ensures Calls(w, p, key, free + 10)
         == (World(w.dir[Quarantine(time, free) := w.dir[Path]][Path := |w.files| + 1], w.files + [Junk, Key(key)],
                   w.used + {key}),
             p.(phase := Done(Ok(key)), aside := Some(Quarantine(time, free))))
  {
    hide *;
    var name := Quarantine(time, free);
    MovesAside(w, p, key, time, free);
    CallsFollow(w, p, key, free + 3, 7);
    StillPlain(w, name, key);
    LaunchFinishes(MovedAside(w, name), p.(phase := Looking, aside := Some(name)), key);
  }

  lemma MovesAside(w: World, p: Process, key: nat, time: nat, free: nat)
    requires Plain(w) && p.job == Replace(time) && p.phase.Checking? && Path in w.dir
    requires free < 1000 && Quarantine(time, free) !in w.dir
    requires forall a :: 0 <= a < free ==> Quarantine(time, a) in w.dir
    ensures Calls(w, p, key, free + 3)
         == (MovedAside(w, Quarantine(time, free)), p.(phase := Looking, aside := Some(Quarantine(time, free))))
  {
    hide *;
    Reserves(w, p, key);
    CountsToTheFreeName(w, p.(phase := Reserving(0)), key, time, free);
    CallsFollow(w, p, key, 1, free);
    RenamesAside(w, p.(phase := Reserving(free)), key, time, free);
    CallsFollow(w, p, key, 1 + free, 2);
  }

  /** The file of the path under a reserved name. */
  function MovedAside(w: World, name: Name): World
    requires Path in w.dir
  {
    World((w.dir - {Path})[name := w.dir[Path]], w.files + [Junk], w.used)
  }

  lemma Reserves(w: World, p: Process, key: nat)
    requires p.phase.Checking? && Path in w.dir
    ensures Calls(w, p, key, 1) == (w, p.(phase := Reserving(0)))
  {
    OneCall(w, p, key);
  }

  lemma StillPlain(w: World, name: Name, key: nat)
    requires Plain(w) && Path in w.dir && name.Quarantine?
    ensures var moved := MovedAside(w, name);
            && Plain(moved) && Path !in moved.dir && moved.used == w.used
            && World(moved.dir[Path := |moved.files|], moved.files + [Key(key)], moved.used + {key})
               == World(w.dir[name := w.dir[Path]][Path := |w.files| + 1], w.files + [Junk, Key(key)], w.used + {key})
  {
    var moved := MovedAside(w, name);
    assert moved.dir[Path := |moved.files|] == w.dir[name := w.dir[Path]][Path := |w.files| + 1];
    assert moved.files + [Key(key)] == w.files + [Junk, Key(key)];
  }

  lemma OneCall(w: World, p: Process, key: nat)
    ensures Calls(w, p, key, 1) == Move(w, p, key)
  {
    assert Calls(w, p, key, 0) == (w, p);
  }

  lemma RenamesAside(w: World, p: Process, key: nat, time: nat, free: nat)
    requires Plain(w) && p.job == Replace(time) && p.phase == Reserving(free) && Path in w.dir
    requires free < 1000 && Quarantine(time, free) !in w.dir
    ensures Calls(w, p, key, 2)
         == (MovedAside(w, Quarantine(time, free)), p.(phase := Looking, aside := Some(Quarantine(time, free))))
  {
    OneCall(w, p, key);
    var s1 := Move(w, p, key);
    assert Calls(w, p, key, 2) == Move(s1.0, s1.1, key);
    var name := Quarantine(time, free);
    assert s1.0.dir[Path] == w.dir[Path] && s1.0.dir[name] == |w.files|;
    assert (s1.0.dir - {Path})[name := w.dir[Path]] == (w.dir - {Path})[name := w.dir[Path]];
  }
}
