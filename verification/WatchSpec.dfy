/** The config watcher's poll loop against outside writes of the file, step by step. */
module WatchSpec {

  import opened Common

  datatype TLS = TLS(certFile: string, keyFile: string, caFile: string, insecureSkipVerify: bool)

  datatype ConfigValue = ConfigValue(
    addr: string, alpn: Option<seq<string>>, enableDatagrams: bool, metricsAddr: string, tls: TLS)

  // What a file holds: a config that may fail to load or to validate.
  datatype Content = Content(config: ConfigValue, loads: bool, valid: bool)

  datatype File = File(modTime: int, content: Content)

  // Where the polling goroutine is: it has seen a newer modification time, or also loaded the file.
  datatype Phase = Idle | Statted(modTime: int) | Loaded(modTime: int, content: Content)

  datatype Watch = Watch(
    file: File,
    recorded: int,                // modTime
    current: Content,
    phase: Phase,
    times: seq<int>,              // every modification time recorded, the first one included
    delivered: seq<Content>)      // every config given to onChange

  datatype Event = Write(file: File) | Stat(ok: bool) | Load(ok: bool) | Commit

  // WatchFile loads first and looks at the modification time afterwards.
  function Start(loaded: File, statted: File): Watch {
    Watch(statted, statted.modTime, loaded.content, Idle, [statted.modTime], [loaded.content])
  }

  function Step(w: Watch, ev: Event): Watch {
    match ev
    case Write(f) => w.(file := f)
    case Stat(ok) => if w.phase.Idle? && ok && w.file.modTime > w.recorded then w.(phase := Statted(w.file.modTime)) else w
    case Load(ok) =>
      if !w.phase.Statted? then w
      else if ok && w.file.content.loads && w.file.content.valid then w.(phase := Loaded(w.phase.modTime, w.file.content))
      else w.(phase := Idle)
    case Commit =>
      if !w.phase.Loaded? then w
      else w.(recorded := w.phase.modTime, current := w.phase.content, phase := Idle,
              times := w.times + [w.phase.modTime], delivered := w.delivered + [w.phase.content])
  }

  function Run(w: Watch, evs: seq<Event>): Watch {
    if evs == [] then w else Step(Run(w, evs[..|evs| - 1]), evs[|evs| - 1])
  }

  // Every write raises the modification time.
  ghost predicate StrictWrites(w: Watch, evs: seq<Event>) {
    evs == [] ||
    (StrictWrites(w, evs[..|evs| - 1]) &&
     (evs[|evs| - 1].Write? ==> evs[|evs| - 1].file.modTime > Run(w, evs[..|evs| - 1]).file.modTime))
  }

  predicate Usable(c: Content) { c.loads && c.valid }

  ghost predicate Inv(w: Watch) {
    && w.recorded <= w.file.modTime
    && (w.recorded == w.file.modTime ==> w.current == w.file.content)
    && (w.phase.Statted? ==> w.recorded < w.phase.modTime <= w.file.modTime)
    && (w.phase.Loaded? ==>
          && w.recorded < w.phase.modTime <= w.file.modTime && Usable(w.phase.content)
          && (w.phase.modTime == w.file.modTime ==> w.phase.content == w.file.content))
    && Usable(w.current)
    && w.times != [] && w.times[|w.times| - 1] == w.recorded
    && (forall i, j :: 0 <= i < j < |w.times| ==> w.times[i] < w.times[j])
    && (forall i :: 0 <= i < |w.delivered| ==> Usable(w.delivered[i]))
    && w.delivered != [] && w.delivered[|w.delivered| - 1] == w.current && |w.delivered| == |w.times|
  }

  /** No update is lost: in every interleaving of poll steps with writes that raise the modification
      time, started on a file that did not change in between, the recorded time never passes the
      file's, equality means the current config is the file's content, recorded times increase, and
      only usable configs are delivered. */
  lemma {:induction false} NoLostUpdate(f: File, evs: seq<Event>)
    requires Usable(f.content) && StrictWrites(Start(f, f), evs)
    ensures Inv(Run(Start(f, f), evs))
  {
    if evs != [] {
      NoLostUpdate(f, evs[..|evs| - 1]);
    }
  }

  // One poll, with the last write that lands between its stat and its load.
  function PollSteps(statOk: bool, write: File, loadOk: bool): seq<Event> {
    [Stat(statOk), Write(write), Load(loadOk), Commit]
  }

  /** What one poll comes to: it takes the newer time it saw and the content it loaded afterwards, both
      or neither. */
  lemma PollTakesBothOrNeither(w: Watch, statOk: bool, write: File, loadOk: bool)
    requires w.phase.Idle?
    ensures Run(w, PollSteps(statOk, write, loadOk)) ==
      if statOk && w.file.modTime > w.recorded && loadOk && Usable(write.content) then
        w.(file := write, recorded := w.file.modTime, current := write.content,
           times := w.times + [w.file.modTime], delivered := w.delivered + [write.content])
      else w.(file := write)
  {
    var evs := PollSteps(statOk, write, loadOk);
    assert evs[..3][..2][..1][..0] == [] && evs[..3][..2][..1] == [evs[0]];
    assert evs[..3][..2] == [evs[0], evs[1]] && evs[..3] == [evs[0], evs[1], evs[2]];
    assert Run(w, evs[..3][..2][..1]) == Step(w, evs[0]);
    assert Run(w, evs[..3][..2]) == Step(Step(w, evs[0]), evs[1]);
    assert Run(w, evs[..3]) == Step(Step(Step(w, evs[0]), evs[1]), evs[2]);
  }

  /** After one undisturbed poll the current config is the file's content exactly when that content is
      usable; otherwise the poll changes nothing, so that later polls try again. */
  lemma QuietPollCatchesUpIff(w: Watch)
    requires Inv(w) && w.phase.Idle?
    ensures var u := Run(w, [Stat(true), Load(true), Commit]);
      && (u.current == w.file.content <==> Usable(w.file.content))
      && (u.recorded == w.file.modTime <==> Usable(w.file.content))
      && (!Usable(w.file.content) ==> u == w)
  {
    var evs := [Stat(true), Load(true), Commit];
    assert evs[..2][..1][..0] == [] && evs[..2][..1] == [evs[0]] && evs[..2] == [evs[0], evs[1]];
    assert Run(w, evs[..2][..1]) == Step(w, Stat(true));
    assert Run(w, evs[..2]) == Step(Step(w, Stat(true)), Load(true));
  }

  predicate NoWrites(evs: seq<Event>) {
    forall i :: 0 <= i < |evs| ==> !evs[i].Write?
  }

  /** A file whose modification time is not newer than the recorded one is never looked at again. */
  lemma {:induction false} NotNewerIsIgnored(w: Watch, evs: seq<Event>)
    requires w.phase.Idle? && w.file.modTime <= w.recorded && NoWrites(evs)
    ensures Run(w, evs) == w
  {
    if evs != [] {
      NotNewerIsIgnored(w, evs[..|evs| - 1]);
    }
  }

  /** The first load happens before the first look at the modification time. A write between the two
      is lost, until the file changes again, exactly when it changed the content. */
  lemma WriteDuringStartIsLostIff(loaded: File, statted: File, evs: seq<Event>)
    requires NoWrites(evs)
    ensures Run(Start(loaded, statted), evs).current != statted.content <==> loaded.content != statted.content
  {
    NotNewerIsIgnored(Start(loaded, statted), evs);
  }

  // The newest modification time the watcher has seen or taken.
  function Seen(w: Watch): int {
    if w.phase.Loaded? then w.phase.modTime else w.recorded
  }

  // A write that the watcher can still take: usable, and either inside a poll that has looked at the
  // time and not loaded yet, or newer than what the watcher has seen.
  predicate CanTake(w: Watch, f: File) {
    Usable(f.content) && (w.phase.Statted? || f.modTime > Seen(w))
  }

  // The poll that is under way runs on to its end, and then one more.
  const TWO_POLLS := [Load(true), Commit, Stat(true), Load(true), Commit]

  lemma RunSnoc(w: Watch, evs: seq<Event>, ev: Event)
    ensures Run(w, evs + [ev]) == Step(Run(w, evs), ev)
  {
    assert (evs + [ev])[..|evs|] == evs;
  }

  lemma TwoPolls(w: Watch)
    ensures Run(w, TWO_POLLS) == Step(Step(Step(Step(Step(w, Load(true)), Commit), Stat(true)), Load(true)), Commit)
  {
    var a := [] + [Load(true)];
    RunSnoc(w, [], Load(true));
    RunSnoc(w, a, Commit);
    RunSnoc(w, a + [Commit], Stat(true));
    RunSnoc(w, a + [Commit] + [Stat(true)], Load(true));
    RunSnoc(w, a + [Commit] + [Stat(true)] + [Load(true)], Commit);
    assert a + [Commit] + [Stat(true)] + [Load(true)] + [Commit] == TWO_POLLS;
  }

  // The content is neither current nor loaded.
  predicate IsNews(w: Watch, c: Content) {
    c != w.current && (w.phase.Loaded? ==> c != w.phase.content)
  }

  lemma {:induction false} NeverTaken(w: Watch, evs: seq<Event>)
    requires IsNews(w, w.file.content) && !CanTake(w, w.file) && NoWrites(evs)
    ensures var u := Run(w, evs); u.file == w.file && IsNews(u, w.file.content) && !CanTake(u, w.file)
  {
    if evs != [] {
      NeverTaken(w, evs[..|evs| - 1]);
    }
  }

  /** Wherever the polling goroutine is when a new content is written: if nothing else is written, the
      watcher takes it at some point exactly when it is usable and either the time has been looked at
      and the file not loaded yet, or its time is newer than what the watcher has seen. Then the poll
      that is under way and one more are enough; otherwise it stays unseen for good. */
  lemma {:induction false} WriteIsSeenIff(w: Watch, f: File)
    requires IsNews(w, f.content)
    ensures (exists evs :: NoWrites(evs) && Run(Step(w, Write(f)), evs).current == f.content) <==> CanTake(w, f)
    ensures Run(Step(w, Write(f)), TWO_POLLS).current == f.content <==> CanTake(w, f)
  {
    var u := Step(w, Write(f));
    TwoPolls(u);
    if CanTake(w, f) {
      assert NoWrites(TWO_POLLS) && Run(u, TWO_POLLS).current == f.content;
    } else {
      forall evs | NoWrites(evs) ensures Run(u, evs).current != f.content {
        NeverTaken(u, evs);
      }
    }
  }

  /** A write that raises the time need not be seen, and one that does not raise it may be: the same
      time as a write that a poll has already loaded, a time below the recorded one that rises again,
      and a second write of a time nobody has looked at. */
  lemma RaisingIsNotTheCondition(start: File, b: Content, c: Content)
    requires Usable(start.content) && Usable(b) && Usable(c) && start.content != c && b != c
    ensures var t, w0 := start.modTime, Start(start, start);
      && !CanTake(Run(w0, [Write(File(t + 1, b)), Stat(true), Load(true)]), File(t + 1, c))
      && !CanTake(Run(w0, [Write(File(t - 2, b))]), File(t - 1, c))
      && CanTake(Run(w0, [Write(File(t + 1, b))]), File(t + 1, c))
  {
    var t, w0 := start.modTime, Start(start, start);
    RunSnoc(w0, [], Write(File(t + 1, b)));
    RunSnoc(w0, [] + [Write(File(t + 1, b))], Stat(true));
    RunSnoc(w0, [] + [Write(File(t + 1, b))] + [Stat(true)], Load(true));
    RunSnoc(w0, [], Write(File(t - 2, b)));
    assert [] + [Write(File(t + 1, b))] + [Stat(true)] + [Load(true)] == [Write(File(t + 1, b)), Stat(true), Load(true)];
    assert [] + [Write(File(t + 1, b))] == [Write(File(t + 1, b))] && [] + [Write(File(t - 2, b))] == [Write(File(t - 2, b))];
  }
}
