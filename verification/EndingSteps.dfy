/** Why a unit is never attempted again (adapter/messenger.go): the reasons, and what one step tells. */
module EndingSteps {
  import opened Outcomes
  import opened Segments
  import opened OfflineQueue
  import opened DeliveryRuns
  import opened DeliverySafety
  import FlushOrder

  datatype Reason =
    | Answered(attempt: nat)        // the adapter's answer was not "not sent", or there is no queue to go to
    | Behind(attempt: nat)          // the answer to an earlier chunk of its own send was such a failure
    | TooOld(save: int, take: int)  // the flush that took this save of it found it expired
    | PushedOut(save: int)          // the queue was full and this save of it the oldest

  datatype Ending = Ending(id: nat, reason: Reason)

  /** A flush takes the queue: how many saves there were, and the time. */
  datatype Take = Take(saves: nat, at: int)

  /** The first unit of the send that each unit belongs to, the unit of every save in order, every take, and what
      ended why. */
  datatype Story = Story(firsts: seq<nat>, saves: seq<nat>, takes: seq<Take>, endings: seq<Ending>)

  const UNTOLD := Story([], [], [], [])

  // ---- Telling the story of a run ----

  function AllBehind(units: seq<Unit>, attempt: nat): seq<Ending> {
    seq(|units|, i requires 0 <= i < |units| => Ending(units[i].id, Behind(attempt)))
  }

  function Pushed(queue: seq<Queued>, saves: nat): seq<Ending> {
    if |queue| >= OFFLINE_QUEUE_MAX_SIZE
    then [Ending(queue[0].unit.id, PushedOut(saves - OFFLINE_QUEUE_MAX_SIZE))]
    else []
  }

  /** The units that the next step of a goroutine ends. */
  function EndedBy(env: Env, thread: Thread, sh: Shared, h: History, outcome: Outcome, st: Story): seq<Ending> {
    match thread
    case Sending(chunks) =>
      if chunks == [] || (outcome.NotSent? && env.enabled) then []
      else [Ending(chunks[0].id, Answered(|h.log|))]
           + if outcome.Sent? then [] else AllBehind(chunks[1..], |h.log|)
    case Flushing(rest, started, _) =>
      if rest == [] then []
      else if Expired(rest[0], started, env.expire) then [Ending(rest[0].unit.id, Visit(st, rest))]
      else if outcome.NotSent? then Pushed(sh.queue, |st.saves|)
      else [Ending(rest[0].unit.id, Answered(|h.log|))]
    case _ => if FlushOrder.SavedBy(env, thread, outcome).Some? then Pushed(sh.queue, |st.saves|) else []
  }

  /** The reason for the next entry to visit: what is left to visit are the last saves of the last take. */
  function Visit(st: Story, rest: seq<Queued>): Reason {
    TooOld((if st.takes == [] then 0 else st.takes[|st.takes| - 1].saves) - |rest|, |st.takes| - 1)
  }

  function SavedIds(env: Env, thread: Thread, outcome: Outcome): seq<nat> {
    match FlushOrder.SavedBy(env, thread, outcome)
    case Some(msg) => [msg.unit.id]
    case None => []
  }

  function TakesAfter(env: Env, thread: Thread, st: Story): seq<Take> {
    if thread.Taking? then st.takes + [Take(|st.saves|, env.now)] else st.takes
  }

  function Tell(s: State, step: Step, st: Story): Story {
    match step
    case Send(whole, chunks) =>
      var first := |s.history.bodies|;
      st.(firsts := st.firsts + seq(if s.env.enabled && !s.env.connected then 1 else |chunks|, _ => first))
    case Run(t, outcome, _) =>
      if t >= |s.threads| then st else
      var thread := s.threads[t];
      Story(st.firsts,
            st.saves + SavedIds(s.env, thread, outcome),
            TakesAfter(s.env, thread, st),
            st.endings + EndedBy(s.env, thread, s.shared, s.history, outcome, st))
    case _ => st
  }

  ghost function Told(s: State, steps: seq<Step>, st: Story): Story
    requires Possible(s, steps)
    decreases |steps|
  {
    if steps == [] then st else Told(Next(s, steps[0]), steps[1..], Tell(s, steps[0], st))
  }

  // ---- What the reasons mean ----

  /** No flush took the queue between this save and the hundred after it. */
  ghost predicate Untaken(takes: seq<Take>, save: int) {
    forall i | 0 <= i < |takes| :: takes[i].saves <= save || save + OFFLINE_QUEUE_MAX_SIZE < takes[i].saves
  }

  /** This take is the first after the save, and at most a hundred saves later. */
  ghost predicate TakenBy(takes: seq<Take>, save: int, k: int) {
    && 0 <= k < |takes| && save < takes[k].saves <= save + OFFLINE_QUEUE_MAX_SIZE
    && forall i | 0 <= i < k :: takes[i].saves <= save
  }

  /** The take came later after the unit's first save than entries are kept. */
  ghost predicate Late(env: Env, h: History, st: Story, save: int, k: int) {
    && 0 <= save < |st.saves| && 0 <= k < |st.takes| && st.saves[save] in h.born
    && h.born[st.saves[save]] + env.expire < st.takes[k].at
  }

  ghost predicate Untried(log: seq<Attempt>, id: nat) {
    forall i | 0 <= i < |log| :: log[i].id != id
  }

  ghost predicate SameSend(firsts: seq<nat>, id: nat, later: nat) {
    id < later < |firsts| && firsts[id] == firsts[later]
  }

  predicate GaveUp(env: Env, a: Attempt) {
    !a.outcome.NotSent? || (a.started.None? && !env.enabled)
  }

  /** A direct attempt that failed and put nothing into the queue: the chunks behind it are given up too. */
  predicate GaveUpRest(env: Env, a: Attempt) {
    GaveUp(env, a) && a.started.None? && !a.outcome.Sent?
  }

  ghost predicate Justified(env: Env, h: History, st: Story, e: Ending) {
    match e.reason
    case Answered(k) => k < |h.log| && h.log[k].id == e.id && GaveUp(env, h.log[k])
    case Behind(k) =>
      && k < |h.log| && GaveUpRest(env, h.log[k])
      && SameSend(st.firsts, h.log[k].id, e.id) && Untried(h.log, e.id)
    case TooOld(save, k) =>
      0 <= save < |st.saves| && st.saves[save] == e.id && TakenBy(st.takes, save, k) && Late(env, h, st, save, k)
    case PushedOut(save) =>
      && 0 <= save && save + OFFLINE_QUEUE_MAX_SIZE < |st.saves| && st.saves[save] == e.id
      && Untaken(st.takes, save)
  }

  // ---- The invariant ----

  function Named(endings: seq<Ending>): (ids: seq<nat>)
    ensures |ids| == |endings|
  {
    seq(|endings|, i requires 0 <= i < |endings| => endings[i].id)
  }

  ghost predicate AllJustified(env: Env, h: History, st: Story) {
    forall i | 0 <= i < |st.endings| :: Justified(env, h, st, st.endings[i])
  }

  /** Every attempt that gives a unit up is its ending. */
  ghost predicate AnswersEnd(env: Env, log: seq<Attempt>, endings: seq<Ending>) {
    forall i | 0 <= i < |log| && GaveUp(env, log[i]) :: Ending(log[i].id, Answered(i)) in endings
  }

  /** And with it end the later chunks of its send, if it gives them up. */
  ghost predicate RestsEnd(env: Env, log: seq<Attempt>, firsts: seq<nat>, endings: seq<Ending>) {
    forall k, id: nat | 0 <= k < |log| && GaveUpRest(env, log[k]) && SameSend(firsts, log[k].id, id) ::
      Ending(id, Behind(k)) in endings
  }

  /** What was saved since the last take is the end of all saves. */
  ghost predicate SavesFit(appended: seq<Queued>, saves: seq<nat>, takes: seq<Take>) {
    var taken := |saves| - |appended|;
    && 0 <= taken && saves[taken..] == QueuedIds(appended)
    && (taken == 0 || exists i :: 0 <= i < |takes| && takes[i].saves == taken)
    && forall i | 0 <= i < |takes| :: takes[i].saves <= taken
  }

  ghost predicate PushedOutAt(st: Story, save: nat) {
    save < |st.saves| && Ending(st.saves[save], PushedOut(save)) in st.endings
  }

  /** Whatever a hundred saves followed untaken was pushed out. */
  ghost predicate FullQueueEnds(st: Story) {
    forall save: nat | save + OFFLINE_QUEUE_MAX_SIZE < |st.saves| && Untaken(st.takes, save) :: PushedOutAt(st, save)
  }

  /** The flush that runs still has to visit the save. */
  predicate ToVisit(takes: seq<Take>, thread: Thread, save: int, k: int) {
    thread.Flushing? && k == |takes| - 1 && 0 <= k && takes[k].saves - |thread.rest| <= save
  }

  ghost predicate TooOldAt(st: Story, save: nat, k: nat) {
    save < |st.saves| && Ending(st.saves[save], TooOld(save, k)) in st.endings
  }

  /** Whatever was taken too late and is not still to be visited has ended so. */
  ghost predicate LateEnds(s: State, st: Story) {
    forall save: nat, k: nat | TakenBy(st.takes, save, k) && Late(s.env, s.history, st, save, k) ::
      TooOldAt(st, save, k) || exists t | 0 <= t < |s.threads| :: ToVisit(st.takes, s.threads[t], save, k)
  }

  /** Chunks still to send: untried, in a row, and all that their send has left. */
  ghost predicate OneSend(firsts: seq<nat>, log: seq<Attempt>, chunks: seq<Unit>) {
    && (forall i | 0 <= i < |chunks| :: Untried(log, chunks[i].id) && chunks[i].id == chunks[0].id + i)
    && (forall i, j | 0 <= i < j < |chunks| :: SameSend(firsts, chunks[i].id, chunks[j].id))
    && (chunks != [] ==> forall id: nat | SameSend(firsts, chunks[0].id, id) :: id < chunks[0].id + |chunks|)
  }

  /** Entries still to visit: the last of what the last take took. */
  ghost predicate OneFlush(saves: seq<nat>, takes: seq<Take>, rest: seq<Queued>, started: int) {
    takes != [] &&
    var last := takes[|takes| - 1];
    && last.at == started && |rest| <= last.saves <= |saves| && |rest| <= OFFLINE_QUEUE_MAX_SIZE
    && saves[last.saves - |rest|..last.saves] == QueuedIds(rest)
    && forall i | 0 <= i < |takes| - 1 :: takes[i].saves <= last.saves - |rest|
  }

  ghost predicate ThreadFits(log: seq<Attempt>, st: Story, thread: Thread) {
    && (thread.Sending? ==> OneSend(st.firsts, log, thread.chunks))
    && (thread.Flushing? ==> OneFlush(st.saves, st.takes, thread.rest, thread.started))
  }

  ghost predicate ThreadsFit(s: State, st: Story) {
    forall t | 0 <= t < |s.threads| :: ThreadFits(s.history.log, st, s.threads[t])
  }

  ghost predicate FirstsFit(firsts: seq<nat>, bodies: nat) {
    |firsts| == bodies && forall id | 0 <= id < |firsts| :: firsts[id] <= id
  }

  ghost predicate SavedAreBorn(h: History, saves: seq<nat>) {
    forall i | 0 <= i < |saves| :: saves[i] in h.born
  }

  ghost predicate StoryOk(s: State, st: Story) {
    && FirstsFit(st.firsts, |s.history.bodies|)
    && Named(st.endings) == s.history.ended
    && AllJustified(s.env, s.history, st)
    && AnswersEnd(s.env, s.history.log, st.endings)
    && RestsEnd(s.env, s.history.log, st.firsts, st.endings)
    && SavesFit(s.history.appended, st.saves, st.takes)
    && SavedAreBorn(s.history, st.saves)
    && FullQueueEnds(st)
    && LateEnds(s, st)
    && ThreadsFit(s, st)
  }

  // ---- What one step of a goroutine does ----

  lemma EffectOnEnded(env: Env, thread: Thread, sh: Shared, h: History, outcome: Outcome, frames: nat, st: Story)
    ensures RunEffect(env, thread, sh, h, outcome, frames).history.ended
         == h.ended + Named(EndedBy(env, thread, sh, h, outcome, st))
  {
    hide SegmentsOf, Saved, SendChunk, Visit;
    assert h.ended + [] == h.ended;
    if thread.Sending? && thread.chunks != [] { SendChunkEnds(env, thread.chunks, sh, h, outcome, frames, st); }
  }

  lemma SendChunkEnds(env: Env, chunks: seq<Unit>, sh: Shared, h: History, outcome: Outcome, frames: nat, st: Story)
    requires chunks != []
    ensures SendChunk(env, chunks, sh, h, outcome, frames).history.ended
         == h.ended + Named(EndedBy(env, Sending(chunks), sh, h, outcome, st))
  {
    hide SegmentsOf;
    assert Ids(chunks) == [chunks[0].id] + Named(AllBehind(chunks[1..], |h.log|));
  }

  lemma EffectOnAppended(env: Env, thread: Thread, sh: Shared, h: History, outcome: Outcome, frames: nat)
    ensures RunEffect(env, thread, sh, h, outcome, frames).history.appended ==
      if thread.Taking? then [] else
        match FlushOrder.SavedBy(env, thread, outcome) case Some(msg) => h.appended + [msg] case None => h.appended
  {
    hide SegmentsOf, Saved;
  }

  // ---- The saves ----

  lemma SaveFits(appended: seq<Queued>, saves: seq<nat>, takes: seq<Take>, msg: Queued)
    requires SavesFit(appended, saves, takes)
    ensures SavesFit(appended + [msg], saves + [msg.unit.id], takes)
  {
  }

  lemma TakeFits(appended: seq<Queued>, saves: seq<nat>, takes: seq<Take>, now: int)
    requires SavesFit(appended, saves, takes)
    ensures SavesFit([], saves, takes + [Take(|saves|, now)])
  {
    var takes' := takes + [Take(|saves|, now)];
    assert takes'[|takes|].saves == |saves|;
  }

  lemma SavesStayFit(env: Env, thread: Thread, outcome: Outcome, appended: seq<Queued>, st: Story)
    requires SavesFit(appended, st.saves, st.takes)
    ensures SavesFit(
      if thread.Taking? then [] else
        match FlushOrder.SavedBy(env, thread, outcome) case Some(msg) => appended + [msg] case None => appended,
      st.saves + SavedIds(env, thread, outcome), TakesAfter(env, thread, st))
  {
    hide SavesFit;
    assert st.saves + [] == st.saves;
    if thread.Taking? { TakeFits(appended, st.saves, st.takes, env.now); }
    match FlushOrder.SavedBy(env, thread, outcome)
    case Some(msg) => SaveFits(appended, st.saves, st.takes, msg);
    case None =>
  }

  lemma PushedIsOldest(sh: Shared, h: History, st: Story)
    requires QueueOk(sh, h) && SavesFit(h.appended, st.saves, st.takes) && |sh.queue| >= OFFLINE_QUEUE_MAX_SIZE
    ensures
      var save := |st.saves| - OFFLINE_QUEUE_MAX_SIZE;
      0 <= save && st.saves[save] == sh.queue[0].unit.id && Untaken(st.takes, save)
  {
    hide AllQueued, BornExist, Untaken;
    QueueIsLastSaves(sh, h, st);
    TakenBefore(h.appended, st);
  }

  /** The queue holds the last saves, none of them taken. */
  lemma QueueIsLastSaves(sh: Shared, h: History, st: Story)
    requires QueueOk(sh, h) && SavesFit(h.appended, st.saves, st.takes)
    ensures |sh.queue| <= |st.saves|
    ensures st.saves[|st.saves| - |sh.queue|..] == QueuedIds(sh.queue)
    ensures forall i | 0 <= i < |st.takes| :: st.takes[i].saves <= |st.saves| - |sh.queue|
    ensures |sh.queue| <= OFFLINE_QUEUE_MAX_SIZE
  {
    hide AllQueued, BornExist;
    var k := |h.appended| - |sh.queue|;
    assert 0 <= k && sh.queue == h.appended[k..];
    hide QueueOk;
    var tail := st.saves[|st.saves| - |h.appended|..];
    assert tail[k..] == st.saves[|st.saves| - |sh.queue|..];
    assert QueuedIds(h.appended)[k..] == QueuedIds(sh.queue);
  }

  lemma TakenBefore(appended: seq<Queued>, st: Story)
    requires SavesFit(appended, st.saves, st.takes) && |appended| >= OFFLINE_QUEUE_MAX_SIZE
    ensures Untaken(st.takes, |st.saves| - OFFLINE_QUEUE_MAX_SIZE)
  {
  }

  /** The queue is full exactly if the last hundred saves were not taken. */
  lemma FullIff(sh: Shared, h: History, st: Story)
    requires QueueOk(sh, h) && SavesFit(h.appended, st.saves, st.takes)
    requires |st.saves| >= OFFLINE_QUEUE_MAX_SIZE && Untaken(st.takes, |st.saves| - OFFLINE_QUEUE_MAX_SIZE)
    ensures |sh.queue| >= OFFLINE_QUEUE_MAX_SIZE
  {
    hide AllQueued, BornExist;
  }

  // ---- What stays true ----

  /** Nothing told so far changes. */
  ghost predicate Later(env: Env, h: History, st: Story, env': Env, h': History, st': Story) {
    && env' == env.(now := env'.now, connected := env'.connected, stopped := env'.stopped)
    && h.log <= h'.log && (forall id | id in h.born :: id in h'.born && h'.born[id] == h.born[id])
    && st.firsts <= st'.firsts && st.saves <= st'.saves && st.takes <= st'.takes
    && (forall i | |st.takes| <= i < |st'.takes| :: st'.takes[i].saves == |st.saves|)
  }

  /** No attempt between the two logs is of an ended unit. */
  ghost predicate NoRetry(log: seq<Attempt>, log': seq<Attempt>, ended: seq<nat>) {
    forall k | |log| <= k < |log'| :: log'[k].id !in ended
  }

  lemma JustifiedStays(env: Env, h: History, st: Story, env': Env, h': History, st': Story, e: Ending)
    requires Justified(env, h, st, e) && Later(env, h, st, env', h', st')
    requires NoRetry(h.log, h'.log, h.ended) && e.id in h.ended
    ensures Justified(env', h', st', e)
  {
  }

  lemma AllStayJustified(env: Env, h: History, st: Story, env': Env, h': History, st': Story)
    requires AllJustified(env, h, st) && Later(env, h, st, env', h', st') && Named(st.endings) == h.ended
    requires NoRetry(h.log, h'.log, h.ended)
    ensures forall i | 0 <= i < |st.endings| :: Justified(env', h', st', st.endings[i])
  {
    hide Justified, Later, NoRetry;
    forall i | 0 <= i < |st.endings| ensures Justified(env', h', st', st.endings[i]) {
      assert Named(st.endings)[i] in h.ended;
      JustifiedStays(env, h, st, env', h', st', st.endings[i]);
    }
  }

  lemma AnsweredIsJustified(env: Env, thread: Thread, sh: Shared, h: History, outcome: Outcome, h': History, st: Story,
                            st': Story, e: Ending)
    requires e in EndedBy(env, thread, sh, h, outcome, st) && e.reason.Answered?
    requires TriesTarget(env, thread, h.log, outcome, h'.log)
    ensures Justified(env, h', st', e)
  {
    hide SegmentsOf;
  }

  /** The entry that a flush comes to next, under the number of its save. */
  lemma NextVisit(h: History, st: Story, rest: seq<Queued>, started: int)
    requires rest != [] && AllQueued(h, rest) && OneFlush(st.saves, st.takes, rest, started)
    ensures
      var visit := Visit(st, rest);
      && 0 <= visit.save < |st.saves|
      && st.saves[visit.save] == rest[0].unit.id
      && TakenBy(st.takes, visit.save, visit.take)
      && st.takes[visit.take].at == started
      && rest[0].unit.id in h.born
      && h.born[rest[0].unit.id] == rest[0].createdAt
  {
    assert QueuedOk(h, rest[0]);
    var last := st.takes[|st.takes| - 1];
    assert st.saves[last.saves - |rest|..last.saves][0] == QueuedIds(rest)[0];
  }

  lemma TooOldIsJustified(env: Env, thread: Thread, sh: Shared, h: History, outcome: Outcome, h': History, st: Story,
                          st': Story, e: Ending)
    requires ThreadOk(h, thread) && ThreadFits(h.log, st, thread)
    requires e in EndedBy(env, thread, sh, h, outcome, st) && e.reason.TooOld?
    requires st.saves <= st'.saves && st'.takes == st.takes
    requires forall id | id in h.born :: id in h'.born && h'.born[id] == h.born[id]
    ensures Justified(env, h', st', e)
  {
    assert thread.Flushing? && thread.rest != [];
    hide OneFlush, AllQueued, TakenBy, AllFresh, SegmentsOf;
    NextVisit(h, st, thread.rest, thread.started);
  }

  lemma BehindWhich(env: Env, thread: Thread, sh: Shared, h: History, outcome: Outcome, st: Story, e: Ending)
    requires e in EndedBy(env, thread, sh, h, outcome, st) && e.reason.Behind?
    ensures thread.Sending?
    ensures !outcome.Sent?
    ensures !(outcome.NotSent? && env.enabled)
    ensures exists i | 0 < i < |thread.chunks| :: e == Ending(thread.chunks[i].id, Behind(|h.log|))
  {
    var chunks := thread.chunks;
    var rest := AllBehind(chunks[1..], |h.log|);
    assert e in rest;
    var i :| 0 <= i < |rest| && rest[i] == e;
    assert e == Ending(chunks[i + 1].id, Behind(|h.log|));
  }

  lemma BehindIsJustified(env: Env, thread: Thread, sh: Shared, h: History, outcome: Outcome, h': History, st: Story,
                          st': Story, e: Ending)
    requires ThreadFits(h.log, st, thread) && st'.firsts == st.firsts
    requires e in EndedBy(env, thread, sh, h, outcome, st) && e.reason.Behind?
    requires TriesTarget(env, thread, h.log, outcome, h'.log)
    ensures Justified(env, h', st', e)
  {
    hide EndedBy, SegmentsOf;
    BehindWhich(env, thread, sh, h, outcome, st, e);
    var i :| 0 < i < |thread.chunks| && e == Ending(thread.chunks[i].id, Behind(|h.log|));
    var first, k := thread.chunks[0].id, |h.log|;
    assert SameSend(st.firsts, first, e.id) && Untried(h.log, e.id);
    assert h'.log[k].id == first && GaveUp(env, h'.log[k]);
  }

  lemma PushedIsJustified(env: Env, thread: Thread, sh: Shared, h: History, outcome: Outcome, h': History, st: Story,
                          st': Story, e: Ending)
    requires QueueOk(sh, h) && SavesFit(h.appended, st.saves, st.takes)
    requires e in EndedBy(env, thread, sh, h, outcome, st) && e.reason.PushedOut?
    requires st'.saves == st.saves + SavedIds(env, thread, outcome) && st'.takes == TakesAfter(env, thread, st)
    ensures Justified(env, h', st', e)
  {
    hide QueueOk, SavesFit;
    PushedIsOldest(sh, h, st);
  }

  /** A step that attempts its target logs the answer. */
  ghost predicate TriesTarget(env: Env, thread: Thread, log: seq<Attempt>, outcome: Outcome, log': seq<Attempt>) {
    match Target(env, thread)
    case None => log' == log
    case Some(u) =>
      && |log'| == |log| + 1 && log <= log'
      && log'[|log|].id == u.id && log'[|log|].outcome == outcome
      && (log'[|log|].started.None? <==> !thread.Flushing?)
  }

  lemma EffectTries(env: Env, thread: Thread, sh: Shared, h: History, outcome: Outcome, frames: nat)
    requires ThreadOk(h, thread)
    ensures
      var h' := RunEffect(env, thread, sh, h, outcome, frames).history;
      && TriesTarget(env, thread, h.log, outcome, h'.log)
      && forall id | id in h.born :: id in h'.born && h'.born[id] == h.born[id]
  {
    hide RunEffect, SegmentsOf, ThreadOk;
    EnteringIsFresh(h, thread);
    EffectOnHistory(env, thread, sh, h, outcome, frames);
  }

  lemma NewJustified(s: State, t: nat, outcome: Outcome, frames: nat, st: Story, e: Ending)
    requires t < |s.threads| && QueueOk(s.shared, s.history) && ThreadOk(s.history, s.threads[t])
    requires SavesFit(s.history.appended, st.saves, st.takes)
    requires ThreadFits(s.history.log, st, s.threads[t])
    requires e in EndedBy(s.env, s.threads[t], s.shared, s.history, outcome, st)
    ensures
      var step := Run(t, outcome, frames);
      var h' := RunEffect(s.env, s.threads[t], s.shared, s.history, outcome, frames).history;
      Justified(s.env, h', Tell(s, step, st), e)
  {
    hide RunEffect, QueueOk, SavesFit, ThreadOk, ThreadFits, Justified, EndedBy, SavedIds;
    var thread, h := s.threads[t], s.history;
    EffectTries(s.env, thread, s.shared, h, outcome, frames);
    var h' := RunEffect(s.env, thread, s.shared, h, outcome, frames).history;
    var st' := Tell(s, Run(t, outcome, frames), st);
    match e.reason
    case PushedOut(_) => PushedIsJustified(s.env, thread, s.shared, h, outcome, h', st, st', e);
    case Behind(_) => BehindIsJustified(s.env, thread, s.shared, h, outcome, h', st, st', e);
    case TooOld(_, _) =>
      OnlyFlushesFindTooOld(s.env, thread, s.shared, h, outcome, st, e);
      TooOldIsJustified(s.env, thread, s.shared, h, outcome, h', st, st', e);
    case Answered(_) => AnsweredIsJustified(s.env, thread, s.shared, h, outcome, h', st, st', e);
  }

  lemma OnlyFlushesFindTooOld(env: Env, thread: Thread, sh: Shared, h: History, outcome: Outcome, st: Story, e: Ending)
    requires e in EndedBy(env, thread, sh, h, outcome, st) && e.reason.TooOld?
    ensures thread.Flushing?
  {
  }

  // ---- Every end is told ----

  lemma AnswersStillEnd(env: Env, thread: Thread, sh: Shared, h: History, outcome: Outcome, h': History, st: Story)
    requires TriesTarget(env, thread, h.log, outcome, h'.log) && AnswersEnd(env, h.log, st.endings)
    ensures AnswersEnd(env, h'.log, st.endings + EndedBy(env, thread, sh, h, outcome, st))
  {
    hide SegmentsOf, Pushed, AllBehind, Visit;
    var ended := EndedBy(env, thread, sh, h, outcome, st);
    forall i | 0 <= i < |h'.log| && GaveUp(env, h'.log[i])
      ensures Ending(h'.log[i].id, Answered(i)) in st.endings + ended
    {
      if i == |h.log| { assert ended[0] == Ending(h'.log[i].id, Answered(i)); }
    }
  }

  /** The chunks that a direct send gives up behind its first are the rest of its send. */
  lemma GivenUpRest(env: Env, chunks: seq<Unit>, sh: Shared, h: History, outcome: Outcome, st: Story, id: nat)
    requires chunks != [] && OneSend(st.firsts, h.log, chunks) && SameSend(st.firsts, chunks[0].id, id)
    requires !outcome.Sent? && !(outcome.NotSent? && env.enabled)
    ensures Ending(id, Behind(|h.log|)) in EndedBy(env, Sending(chunks), sh, h, outcome, st)
  {
    var j := id - chunks[0].id;
    assert chunks[j].id == id;
    assert AllBehind(chunks[1..], |h.log|)[j - 1] == Ending(id, Behind(|h.log|));
  }

  lemma RestsStillEnd(env: Env, thread: Thread, sh: Shared, h: History, outcome: Outcome, h': History, st: Story)
    requires TriesTarget(env, thread, h.log, outcome, h'.log) && ThreadFits(h.log, st, thread)
    requires RestsEnd(env, h.log, st.firsts, st.endings)
    ensures RestsEnd(env, h'.log, st.firsts, st.endings + EndedBy(env, thread, sh, h, outcome, st))
  {
    hide EndedBy, OneSend, OneFlush, SameSend, SegmentsOf;
    forall k, id: nat | 0 <= k < |h'.log| && GaveUpRest(env, h'.log[k]) && SameSend(st.firsts, h'.log[k].id, id)
      ensures Ending(id, Behind(k)) in st.endings + EndedBy(env, thread, sh, h, outcome, st)
    {
      if k < |h.log| {
        assert h'.log[k] == h.log[k];
      } else {
        GivenUpRest(env, thread.chunks, sh, h, outcome, st, id);
      }
    }
  }

  /** A save that finds the queue full is told as pushing out its oldest entry. */
  lemma SaveEnds(env: Env, thread: Thread, sh: Shared, h: History, outcome: Outcome, st: Story)
    requires FlushOrder.SavedBy(env, thread, outcome).Some?
    ensures EndedBy(env, thread, sh, h, outcome, st) == Pushed(sh.queue, |st.saves|)
  {
  }

  lemma FullQueueStillEnds(s: State, t: nat, outcome: Outcome, frames: nat, st: Story)
    requires t < |s.threads| && QueueOk(s.shared, s.history) && FullQueueEnds(st)
    requires SavesFit(s.history.appended, st.saves, st.takes)
    ensures FullQueueEnds(Tell(s, Run(t, outcome, frames), st))
  {
    hide EndedBy, QueueOk, SavesFit, FlushOrder.SavedBy;
    var thread, st' := s.threads[t], Tell(s, Run(t, outcome, frames), st);
    forall save: nat | save + OFFLINE_QUEUE_MAX_SIZE < |st'.saves| && Untaken(st'.takes, save)
      ensures PushedOutAt(st', save)
    {
      assert Untaken(st.takes, save) by {
        forall i | 0 <= i < |st.takes|
          ensures st.takes[i].saves <= save || save + OFFLINE_QUEUE_MAX_SIZE < st.takes[i].saves
        {
          assert st'.takes[i] == st.takes[i];
        }
      }
      if save + OFFLINE_QUEUE_MAX_SIZE < |st.saves| {
        assert PushedOutAt(st, save);
      } else {
        FullIff(s.shared, s.history, st);
        PushedIsOldest(s.shared, s.history, st);
        SaveEnds(s.env, thread, s.shared, s.history, outcome, st);
        assert Pushed(s.shared.queue, |st.saves|)[0] == Ending(st.saves[save], PushedOut(save));
      }
    }
  }

  /** What a take takes is what it then has to visit. */
  lemma TakeMustVisit(sh: Shared, h: History, st: Story, now: int, save: nat)
    requires QueueOk(sh, h) && SavesFit(h.appended, st.saves, st.takes)
    requires TakenBy(st.takes + [Take(|st.saves|, now)], save, |st.takes|)
    ensures |st.saves| - |sh.queue| <= save
  {
    hide AllQueued, BornExist;
    var takes := st.takes + [Take(|st.saves|, now)];
    forall i | 0 <= i < |st.takes| ensures st.takes[i].saves <= save { assert takes[i] == st.takes[i]; }
  }

  lemma LateBefore(s: State, t: nat, outcome: Outcome, frames: nat, st: Story, save: nat, k: nat)
    requires t < |s.threads| && ThreadOk(s.history, s.threads[t]) && SavedAreBorn(s.history, st.saves)
    requires SavesFit(s.history.appended, st.saves, st.takes)
    requires Enabled(s, Run(t, outcome, frames))
    requires TakenBy(Tell(s, Run(t, outcome, frames), st).takes, save, k)
    requires Late(s.env, Next(s, Run(t, outcome, frames)).history, Tell(s, Run(t, outcome, frames), st), save, k)
    ensures save < |st.saves|
    ensures k < |st.takes| ==> TakenBy(st.takes, save, k) && Late(s.env, s.history, st, save, k)
  {
    hide RunEffect, ThreadOk, SegmentsOf, SavedIds;
    EffectTries(s.env, s.threads[t], s.shared, s.history, outcome, frames);
    var st' := Tell(s, Run(t, outcome, frames), st);
    assert forall i | 0 <= i < |st.takes| :: st'.takes[i] == st.takes[i];
  }

  /** The entry visited now ends if it was taken too late; the others stay to be visited. */
  lemma VisitedOrLeft(s: State, t: nat, outcome: Outcome, frames: nat, st: Story, save: nat, k: nat)
    requires t < |s.threads| && ThreadOk(s.history, s.threads[t]) && ThreadFits(s.history.log, st, s.threads[t])
    requires ToVisit(st.takes, s.threads[t], save, k) && TakenBy(st.takes, save, k)
    requires Late(s.env, s.history, st, save, k)
    ensures
      var e := RunEffect(s.env, s.threads[t], s.shared, s.history, outcome, frames);
      || ToVisit(st.takes, e.thread, save, k)
      || Ending(st.saves[save], TooOld(save, k)) in
           EndedBy(s.env, s.threads[t], s.shared, s.history, outcome, st)
  {
    hide SegmentsOf, AllQueued, OneFlush, Saved, Pushed;
    var rest := s.threads[t].rest;
    if rest != [] && st.takes[k].saves - |rest| == save {
      NextVisit(s.history, st, rest, s.threads[t].started);
    }
  }

  lemma TakenToVisit(s: State, t: nat, outcome: Outcome, frames: nat, st: Story, save: nat)
    requires t < |s.threads| && s.threads[t].Taking? && |st.saves| - |s.shared.queue| <= save < |st.saves|
    ensures ToVisit(TakesAfter(s.env, Taking, st),
                    RunEffect(s.env, s.threads[t], s.shared, s.history, outcome, frames).thread, save, |st.takes|)
  {
  }

  lemma LateStillEnds(s: State, t: nat, outcome: Outcome, frames: nat, st: Story)
    requires Inv(s) && StoryOk(s, st) && Enabled(s, Run(t, outcome, frames))
    ensures LateEnds(Next(s, Run(t, outcome, frames)), Tell(s, Run(t, outcome, frames), st))
  {
    hide RunEffect, Ledger, LogOk, QueueOk, SavesFit, EndedBy, AllJustified, AnswersEnd, RestsEnd, FullQueueEnds,
         ThreadFits, ThreadOk, SavedIds, TakenBy, Late, ToVisit, SavedAreBorn;
    var thread := s.threads[t];
    var s', st' := Next(s, Run(t, outcome, frames)), Tell(s, Run(t, outcome, frames), st);
    forall save: nat, k: nat | TakenBy(st'.takes, save, k) && Late(s'.env, s'.history, st', save, k)
      ensures TooOldAt(st', save, k) || exists u | 0 <= u < |s'.threads| :: ToVisit(st'.takes, s'.threads[u], save, k)
    {
      LateBefore(s, t, outcome, frames, st, save, k);
      if k >= |st.takes| {
        TakenLast(st'.takes, save, k);
        TakeMustVisit(s.shared, s.history, st, s.env.now, save);
        TakenToVisit(s, t, outcome, frames, st, save);
        assert ToVisit(st'.takes, s'.threads[t], save, k);
      } else if !TooOldAt(st, save, k) {
        var u :| 0 <= u < |s.threads| && ToVisit(st.takes, s.threads[u], save, k);
        FlushesOnly(st.takes, s.threads[u], save, k);
        if u == t {
          VisitedOrLeft(s, t, outcome, frames, st, save, k);
          assert s'.threads[t] == RunEffect(s.env, thread, s.shared, s.history, outcome, frames).thread;
        } else {
          if thread.Taking? { FlushOrder.OnlyFlush(s, t, u); }
          assert ToVisit(st'.takes, s'.threads[u], save, k);
        }
      }
    }
  }

  lemma TakenLast(takes: seq<Take>, save: int, k: int)
    requires TakenBy(takes, save, k)
    ensures 0 <= k < |takes|
  {
  }

  lemma FlushesOnly(takes: seq<Take>, thread: Thread, save: int, k: int)
    requires ToVisit(takes, thread, save, k)
    ensures thread.Flushing?
  {
  }

  // ---- Threads ----

  /** No two goroutines hold the same unit. */
  lemma HeldOnce(s: State, t: nat, u: nat, id: nat)
    requires Ledger(s) && t < |s.threads| && u < |s.threads| && t != u
    requires Weight(s.threads[t], UnitToken(id)) > 0
    ensures Weight(s.threads[u], UnitToken(id)) == 0
  {
    hide Weight, Free;
    assert LedgerAt(s, UnitToken(id));
    if t < u { HeldByTwo(s.threads, t, u, UnitToken(id)); } else { HeldByTwo(s.threads, u, t, UnitToken(id)); }
  }

  lemma TargetIsHeld(env: Env, thread: Thread)
    requires Target(env, thread).Some?
    ensures Weight(thread, UnitToken(Target(env, thread).value.id)) > 0
  {
    if thread.Sending? {
      assert Ids(thread.chunks)[0] == thread.chunks[0].id;
    } else {
      assert QueuedIds(thread.rest)[0] == thread.rest[0].unit.id;
    }
  }

  lemma ChunksAreHeld(thread: Thread, i: nat)
    requires thread.Sending? && i < |thread.chunks|
    ensures Weight(thread, UnitToken(thread.chunks[i].id)) > 0
  {
    assert Ids(thread.chunks)[i] == thread.chunks[i].id;
  }

  lemma OtherThreadsFit(s: State, t: nat, st: Story, st': Story, log': seq<Attempt>)
    requires Ledger(s) && t < |s.threads| && ThreadsFit(s, st)
    requires st'.firsts == st.firsts && st.saves <= st'.saves && st'.takes == TakesAfter(s.env, s.threads[t], st)
    requires s.history.log <= log'
    requires forall k | |s.history.log| <= k < |log'| ::
      Target(s.env, s.threads[t]).Some? && log'[k].id == Target(s.env, s.threads[t]).value.id
    ensures forall u | 0 <= u < |s.threads| && u != t :: ThreadFits(log', st', s.threads[u])
  {
    hide Ledger, Weight, Target, SameSend;
    forall u | 0 <= u < |s.threads| && u != t ensures ThreadFits(log', st', s.threads[u]) {
      var thread, log := s.threads[u], s.history.log;
      assert ThreadFits(log, st, thread);
      if thread.Sending? {
        forall i | 0 <= i < |thread.chunks| ensures Untried(log', thread.chunks[i].id) {
          ChunksAreHeld(thread, i);
          HeldOnce(s, u, t, thread.chunks[i].id);
          assert Untried(log, thread.chunks[i].id);
          if Target(s.env, s.threads[t]).Some? { TargetIsHeld(s.env, s.threads[t]); }
        }
      }
      if thread.Flushing? && s.threads[t].Taking? { FlushOrder.OnlyFlush(s, t, u); }
    }
  }

  /** The rest of a send is one; so is what a flush has left after a visit. */
  lemma TailFits(log: seq<Attempt>, log': seq<Attempt>, firsts: seq<nat>, chunks: seq<Unit>)
    requires chunks != [] && OneSend(firsts, log, chunks)
    requires log <= log' && forall k | |log| <= k < |log'| :: log'[k].id == chunks[0].id
    ensures OneSend(firsts, log', chunks[1..])
  {
    var rest := chunks[1..];
    forall i | 0 <= i < |rest| ensures Untried(log', rest[i].id) && rest[i].id == rest[0].id + i {
      assert Untried(log, chunks[i + 1].id) && SameSend(firsts, chunks[0].id, chunks[i + 1].id);
    }
    forall i, j | 0 <= i < j < |rest| ensures SameSend(firsts, rest[i].id, rest[j].id) {
      assert SameSend(firsts, chunks[i + 1].id, chunks[j + 1].id);
    }
    if rest != [] {
      assert SameSend(firsts, chunks[0].id, chunks[1].id);
      forall id: nat | SameSend(firsts, rest[0].id, id) ensures id < rest[0].id + |rest| {
        assert SameSend(firsts, chunks[0].id, id);
      }
    }
  }

  lemma LeftFits(st: Story, st': Story, rest: seq<Queued>, started: int)
    requires rest != [] && OneFlush(st.saves, st.takes, rest, started)
    requires st.saves <= st'.saves && st'.takes == st.takes
    ensures OneFlush(st'.saves, st'.takes, rest[1..], started)
  {
    var last := st.takes[|st.takes| - 1];
    assert QueuedIds(rest)[1..] == QueuedIds(rest[1..]);
    assert st.saves[last.saves - |rest|..last.saves][1..] == st.saves[last.saves - |rest| + 1..last.saves];
    assert st'.saves[last.saves - |rest| + 1..last.saves] == st.saves[last.saves - |rest| + 1..last.saves];
  }

  lemma TakenFits(sh: Shared, h: History, st: Story, now: int)
    requires QueueOk(sh, h) && SavesFit(h.appended, st.saves, st.takes)
    ensures OneFlush(st.saves, st.takes + [Take(|st.saves|, now)], sh.queue, now)
  {
    hide QueueOk, SavesFit;
    QueueIsLastSaves(sh, h, st);
    assert st.saves[|st.saves| - |sh.queue|..|st.saves|] == st.saves[|st.saves| - |sh.queue|..];
    var takes := st.takes + [Take(|st.saves|, now)];
    forall i | 0 <= i < |takes| - 1 ensures takes[i].saves <= |st.saves| - |sh.queue| {
      assert takes[i] == st.takes[i];
    }
  }

  lemma StartOfEffect(env: Env, thread: Thread, sh: Shared, h: History, outcome: Outcome, frames: nat)
    ensures
      var e := RunEffect(env, thread, sh, h, outcome, frames);
      e.thread.Flushing? ==> e.thread.started == if thread.Flushing? then thread.started else env.now
  {
    hide SegmentsOf, Saved;
  }

  lemma OwnThreadFits(s: State, t: nat, outcome: Outcome, frames: nat, st: Story)
    requires t < |s.threads| && ThreadOk(s.history, s.threads[t]) && QueueOk(s.shared, s.history)
    requires ThreadFits(s.history.log, st, s.threads[t]) && SavesFit(s.history.appended, st.saves, st.takes)
    ensures
      var e := RunEffect(s.env, s.threads[t], s.shared, s.history, outcome, frames);
      ThreadFits(e.history.log, Tell(s, Run(t, outcome, frames), st), e.thread)
  {
    hide RunEffect, SegmentsOf, OneSend, OneFlush, QueueOk, SavesFit, ThreadOk;
    var thread := s.threads[t];
    var e := RunEffect(s.env, thread, s.shared, s.history, outcome, frames);
    var st' := Tell(s, Run(t, outcome, frames), st);
    EffectTries(s.env, thread, s.shared, s.history, outcome, frames);
    ThreadOfEffect(s.env, thread, s.shared, s.history, outcome, frames);
    StartOfEffect(s.env, thread, s.shared, s.history, outcome, frames);
    if e.thread.Sending? { TailFits(s.history.log, e.history.log, st.firsts, thread.chunks); }
    if e.thread.Flushing? {
      if thread.Taking? {
        TakenFits(s.shared, s.history, st, s.env.now);
        assert st.saves + [] == st.saves;
      } else {
        LeftFits(st, st', thread.rest, thread.started);
      }
    }
  }
}
