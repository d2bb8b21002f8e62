// The event log under concurrent transactions: each append reads the highest number among the
// committed rows and its own, and a commit needs `(conversation_id, sequence_no)` to stay unique.
module EventTransactions {

  datatype Kind = MessageReceived | MessageSent | OtherEvent

  datatype Entry = Entry(number: nat, kind: Kind)

  // A conversation's committed state and rows, the rows in the order of their commits.
  datatype Convo = Convo(inherited: int, turnIndex: int, entries: seq<Entry>)

  datatype Status = Open | Committed | Aborted

  // `loaded` is the turn index that the transaction read with the conversation, and `index` the one
  // it has computed since.
  datatype Tx = Tx(conv: nat, status: Status, loaded: int, index: int, pending: seq<Entry>)

  datatype State = State(convs: seq<Convo>, txs: seq<Tx>)

  datatype Step =
    | Create(inherited: int)
    | Begin(conv: nat)
    | Append(tx: nat, kind: Kind)
    | Commit(tx: nat)
    | Abort(tx: nat)

  function MaxNumber(entries: seq<Entry>): nat {
    if entries == [] then 0
    else
      var last, before := entries[|entries| - 1].number, MaxNumber(entries[..|entries| - 1]);
      if last > before then last else before
  }

  predicate Unique(entries: seq<Entry>) {
    forall i, j | 0 <= i < j < |entries| :: entries[i].number != entries[j].number
  }

  predicate IsOpen(s: State, t: nat) {
    t < |s.txs| && s.txs[t].status == Open && s.txs[t].conv < |s.convs|
  }

  function Rows(s: State, t: nat): seq<Entry>
    requires IsOpen(s, t)
  {
    s.convs[s.txs[t].conv].entries + s.txs[t].pending
  }

  function Appended(s: State, t: nat, kind: Kind): Tx
    requires IsOpen(s, t)
  {
    var tx := s.txs[t];
    tx.(pending := tx.pending + [Entry(MaxNumber(Rows(s, t)) + 1, kind)],
        index := if kind == MessageSent then tx.index + 1 else tx.index)
  }

  // The state is written back only if a reply changed it.
  function Written(c: Convo, tx: Tx): Convo {
    c.(entries := c.entries + tx.pending, turnIndex := if Replies(tx.pending) > 0 then tx.index else c.turnIndex)
  }

  function Next(s: State, step: Step): State {
    match step
    case Create(inherited) => s.(convs := s.convs + [Convo(inherited, inherited, [])])
    case Begin(conv) =>
      if conv >= |s.convs| then s
      else s.(txs := s.txs + [Tx(conv, Open, s.convs[conv].turnIndex, s.convs[conv].turnIndex, [])])
    case Append(t, kind) =>
      if IsOpen(s, t) then s.(txs := s.txs[t := Appended(s, t, kind)]) else s
    case Commit(t) =>
      if !IsOpen(s, t) then s
      else if !Unique(Rows(s, t)) then s.(txs := s.txs[t := s.txs[t].(status := Aborted)])
      else
        var conv := s.txs[t].conv;
        State(s.convs[conv := Written(s.convs[conv], s.txs[t])], s.txs[t := s.txs[t].(status := Committed)])
    case Abort(t) =>
      if IsOpen(s, t) then s.(txs := s.txs[t := s.txs[t].(status := Aborted)]) else s
  }

  function Run(s: State, steps: seq<Step>): State {
    if steps == [] then s else Next(Run(s, steps[..|steps| - 1]), steps[|steps| - 1])
  }

  function Replies(entries: seq<Entry>): nat {
    if entries == [] then 0
    else Replies(entries[..|entries| - 1]) + (if entries[|entries| - 1].kind == MessageSent then 1 else 0)
  }

  // A transaction that was committed or aborted does nothing more.
  lemma {:induction false} FinishedIsFinal(s: State, t: nat, last: Step, steps: seq<Step>)
    requires IsOpen(s, t) && (last == Commit(t) || last == Abort(t))
    ensures var after := Run(Next(s, last), steps);
      t < |after.txs| && after.txs[t].status != Open && !IsOpen(after, t)
  {
    if steps != [] {
      FinishedIsFinal(s, t, last, steps[..|steps| - 1]);
      hide Run, MaxNumber, Unique, Replies;
    }
  }

  // ---- What every interleaving keeps -----------------------------------------------------------------------------

  // The numbers continue from `n`, without gap or repeat.
  ghost predicate CountsFrom(entries: seq<Entry>, n: nat) {
    forall i | 0 <= i < |entries| :: entries[i].number == n + 1 + i
  }

  // The first number taken is no longer free: another transaction has committed since it was read.
  predicate Stale(s: State, t: nat) {
    IsOpen(s, t) && s.txs[t].pending != [] && s.txs[t].pending[0].number <= |s.convs[s.txs[t].conv].entries|
  }

  ghost predicate ConvoIsRight(c: Convo) {
    CountsFrom(c.entries, 0) && c.turnIndex <= c.inherited + Replies(c.entries)
  }

  // The turn index has missed no reply.
  predicate Exact(c: Convo) {
    c.turnIndex == c.inherited + Replies(c.entries)
  }

  // What an open transaction has read and taken. Once a reply is lost, no transaction has loaded the
  // true count, so none can bring it back.
  ghost predicate TxIsRight(convs: seq<Convo>, tx: Tx) {
    && tx.conv < |convs|
    && tx.index == tx.loaded + Replies(tx.pending)
    && tx.loaded <= convs[tx.conv].inherited + Replies(convs[tx.conv].entries)
    && (Exact(convs[tx.conv]) || tx.loaded < convs[tx.conv].inherited + Replies(convs[tx.conv].entries))
    && (tx.pending != [] ==> tx.pending[0].number > 0)
    && (CountsFrom(tx.pending, |convs[tx.conv].entries|)
        || (tx.pending != [] && tx.pending[0].number <= |convs[tx.conv].entries|))
  }

  ghost predicate Inv(s: State) {
    && (forall c | 0 <= c < |s.convs| :: ConvoIsRight(s.convs[c]))
    && (forall t | 0 <= t < |s.txs| && s.txs[t].status == Open :: TxIsRight(s.convs, s.txs[t]))
  }

  lemma {:induction false} RepliesConcat(a: seq<Entry>, b: seq<Entry>)
    ensures Replies(a + b) == Replies(a) + Replies(b)
  {
    if b == [] {
      assert a + b == a;
    } else {
      assert (a + b)[..|a + b| - 1] == a + b[..|b| - 1];
      RepliesConcat(a, b[..|b| - 1]);
    }
  }

  lemma {:induction false} MaxOfCount(entries: seq<Entry>)
    requires CountsFrom(entries, 0)
    ensures MaxNumber(entries) == |entries|
  {
    if entries != [] { MaxOfCount(entries[..|entries| - 1]); }
  }

  lemma CountsConcat(a: seq<Entry>, b: seq<Entry>)
    requires CountsFrom(a, 0)
    ensures CountsFrom(b, |a|) <==> CountsFrom(a + b, 0)
  {
    assert forall i | 0 <= i < |b| :: (a + b)[|a| + i] == b[i];
    assert forall i | 0 <= i < |a| :: (a + b)[i] == a[i];
  }

  // Uniqueness is exactly freshness.
  lemma UniqueIffFresh(convs: seq<Convo>, tx: Tx)
    requires TxIsRight(convs, tx) && ConvoIsRight(convs[tx.conv])
    ensures Unique(convs[tx.conv].entries + tx.pending) <==> CountsFrom(tx.pending, |convs[tx.conv].entries|)
    ensures Unique(convs[tx.conv].entries + tx.pending) <==>
      !(tx.pending != [] && tx.pending[0].number <= |convs[tx.conv].entries|)
  {
    var entries := convs[tx.conv].entries;
    var all := entries + tx.pending;
    if CountsFrom(tx.pending, |entries|) {
      CountsConcat(entries, tx.pending);
    } else {
      var i := tx.pending[0].number - 1;
      assert all[i] == entries[i] && all[|entries|] == tx.pending[0];
    }
  }

  lemma AppendKeeps(s: State, t: nat, kind: Kind)
    requires Inv(s) && IsOpen(s, t)
    ensures TxIsRight(s.convs, Appended(s, t, kind))
  {
    var tx := s.txs[t];
    assert ConvoIsRight(s.convs[tx.conv]) && TxIsRight(s.convs, tx);
    hide Inv;
    NextNumber(s.convs[tx.conv].entries, tx.pending);
    OneMore(tx.pending, Entry(MaxNumber(Rows(s, t)) + 1, kind));
    hide CountsFrom, MaxNumber, Replies;
    var n, number := |s.convs[tx.conv].entries|, MaxNumber(Rows(s, t)) + 1;
    if CountsFrom(tx.pending, n) { CountsOneMore(tx.pending, n, Entry(number, kind)); }
  }

  lemma NextNumber(entries: seq<Entry>, pending: seq<Entry>)
    requires CountsFrom(entries, 0)
    ensures CountsFrom(pending, |entries|) ==> MaxNumber(entries + pending) == |entries| + |pending|
  {
    if CountsFrom(pending, |entries|) {
      CountsConcat(entries, pending);
      MaxOfCount(entries + pending);
    }
  }

  lemma OneMore(entries: seq<Entry>, e: Entry)
    ensures Replies(entries + [e]) == Replies(entries) + (if e.kind == MessageSent then 1 else 0)
  {
  }

  lemma CountsOneMore(entries: seq<Entry>, n: nat, e: Entry)
    requires CountsFrom(entries, n) && e.number == n + |entries| + 1
    ensures CountsFrom(entries + [e], n)
  {
  }

  // A commit moves every other open transaction of the conversation on, or makes it stale.
  lemma CommitKeeps(s: State, t: nat)
    requires Inv(s) && IsOpen(s, t) && Unique(Rows(s, t))
    ensures var c := s.txs[t].conv;
      var written := Written(s.convs[c], s.txs[t]);
      ConvoIsRight(written) && forall tx | TxIsRight(s.convs, tx) :: TxIsRight(s.convs[c := written], tx)
  {
    var tx := s.txs[t];
    var c := tx.conv;
    var written := Written(s.convs[c], tx);
    UniqueIffFresh(s.convs, tx);
    CountsConcat(s.convs[c].entries, tx.pending);
    RepliesConcat(s.convs[c].entries, tx.pending);
    forall other | TxIsRight(s.convs, other) ensures TxIsRight(s.convs[c := written], other) {}
  }

  lemma NextKeeps(s: State, step: Step)
    requires Inv(s)
    ensures Inv(Next(s, step))
  {
    match step
    case Append(t, kind) => if IsOpen(s, t) { AppendKeeps(s, t, kind); }
    case Commit(t) => if IsOpen(s, t) && Unique(Rows(s, t)) { CommitKeeps(s, t); }
    case Begin(conv) => if conv < |s.convs| { assert ConvoIsRight(s.convs[conv]); }
    case _ =>
  }

  // Main result: under every interleaving, the committed numbers of each conversation are 1 to n, in
  // commit order, and its turn index is at most the inherited one plus the number of replies.
  lemma {:induction false} RunKeeps(steps: seq<Step>)
    ensures Inv(Run(State([], []), steps))
  {
    if steps != [] {
      RunKeeps(steps[..|steps| - 1]);
      NextKeeps(Run(State([], []), steps[..|steps| - 1]), steps[|steps| - 1]);
    }
  }

  // ---- Stale transactions ------------------------------------------------------------------------------------------

  // A commit succeeds exactly when the transaction is not stale.
  lemma CommitsIffFresh(s: State, t: nat)
    requires Inv(s) && IsOpen(s, t)
    ensures Next(s, Commit(t)).txs[t].status == Committed <==> !Stale(s, t)
  {
    UniqueIffFresh(s.convs, s.txs[t]);
  }

  lemma StaysStale(s: State, t: nat, step: Step)
    requires Inv(s) && Stale(s, t)
    ensures t < |Next(s, step).txs|
    ensures Stale(Next(s, step), t) || Next(s, step).txs[t].status == Aborted
  {
    UniqueIffFresh(s.convs, s.txs[t]);
  }

  // Main result: a transaction that has read a stale maximum never commits, whatever happens next.
  lemma {:induction false} StaleNeverCommits(s: State, t: nat, steps: seq<Step>)
    requires Inv(s) && Stale(s, t)
    ensures Inv(Run(s, steps)) && t < |Run(s, steps).txs|
    ensures Stale(Run(s, steps), t) || Run(s, steps).txs[t].status == Aborted
  {
    if steps != [] {
      StaleNeverCommits(s, t, steps[..|steps| - 1]);
      var before := Run(s, steps[..|steps| - 1]);
      NextKeeps(before, steps[|steps| - 1]);
      if Stale(before, t) { StaysStale(before, t, steps[|steps| - 1]); }
    }
  }

  // Of two transactions that have both appended, the commit of one makes the other stale.
  lemma CommitMakesStale(s: State, t: nat, u: nat)
    requires Inv(s) && IsOpen(s, t) && IsOpen(s, u) && t != u && s.txs[t].conv == s.txs[u].conv
    requires s.txs[t].pending != [] && s.txs[u].pending != [] && !Stale(s, t)
    ensures Stale(Next(s, Commit(t)), u)
  {
  }

  // ---- The grammar of messages ---------------------------------------------------------------------------------

  function MessageKinds(entries: seq<Entry>): seq<Kind> {
    if entries == [] then []
    else
      var last := entries[|entries| - 1].kind;
      MessageKinds(entries[..|entries| - 1]) + (if last == OtherEvent then [] else [last])
  }

  lemma {:induction false} MessageKindsConcat(a: seq<Entry>, b: seq<Entry>)
    ensures MessageKinds(a + b) == MessageKinds(a) + MessageKinds(b)
  {
    if b == [] {
      assert a + b == a;
    } else {
      assert (a + b)[..|a + b| - 1] == a + b[..|b| - 1];
      MessageKindsConcat(a, b[..|b| - 1]);
    }
  }

  ghost predicate Alternate(kinds: seq<Kind>) {
    |kinds| % 2 == 0 && forall i | 0 <= i < |kinds| :: kinds[i] == if i % 2 == 0 then MessageReceived else MessageSent
  }

  // Received and sent messages take turns, and every exchange is complete.
  ghost predicate WellTold(entries: seq<Entry>) {
    Alternate(MessageKinds(entries))
  }

  lemma WellToldConcat(a: seq<Entry>, b: seq<Entry>)
    requires WellTold(a) && WellTold(b)
    ensures WellTold(a + b)
  {
    MessageKindsConcat(a, b);
    hide MessageKinds;
    AlternateConcat(MessageKinds(a), MessageKinds(b));
  }

  lemma AlternateConcat(a: seq<Kind>, b: seq<Kind>)
    requires Alternate(a) && Alternate(b)
    ensures Alternate(a + b)
  {
    forall i | 0 <= i < |a + b| ensures (a + b)[i] == if i % 2 == 0 then MessageReceived else MessageSent {
      if i >= |a| {
        var j := i - |a|;
        assert b[j] == if j % 2 == 0 then MessageReceived else MessageSent;
      }
    }
  }

  // A step that commits rows commits whole exchanges.
  ghost predicate CommitsWhole(s: State, step: Step) {
    step.Commit? && IsOpen(s, step.tx) && !Stale(s, step.tx) ==> WellTold(s.txs[step.tx].pending)
  }

  ghost predicate AllCommitWhole(s: State, steps: seq<Step>) {
    || steps == []
    || (var n := |steps| - 1; AllCommitWhole(s, steps[..n]) && CommitsWhole(Run(s, steps[..n]), steps[n]))
  }

  ghost predicate AllWellTold(s: State) {
    forall c | 0 <= c < |s.convs| :: WellTold(s.convs[c].entries)
  }

  lemma StepTellsWell(s: State, step: Step)
    requires Inv(s) && AllWellTold(s) && CommitsWhole(s, step)
    ensures AllWellTold(Next(s, step))
  {
    if step.Commit? && IsOpen(s, step.tx) {
      UniqueIffFresh(s.convs, s.txs[step.tx]);
      if !Stale(s, step.tx) { WellToldConcat(s.convs[s.txs[step.tx].conv].entries, s.txs[step.tx].pending); }
    }
  }

  // Main result: if every transaction that commits has appended whole exchanges, as turns do, then
  // under every interleaving received and sent messages alternate in each conversation's log.
  lemma {:induction false} RunTellsWell(s: State, steps: seq<Step>)
    requires Inv(s) && AllWellTold(s) && AllCommitWhole(s, steps)
    ensures Inv(Run(s, steps)) && AllWellTold(Run(s, steps))
  {
    if steps != [] {
      RunTellsWell(s, steps[..|steps| - 1]);
      var before := Run(s, steps[..|steps| - 1]);
      NextKeeps(before, steps[|steps| - 1]);
      StepTellsWell(before, steps[|steps| - 1]);
    }
  }

  // ---- The turn index -----------------------------------------------------------------------------------------------

  // The turn index is exact after the commit of a replying transaction if and only if it
  // was exact before and is the value that the transaction loaded.
  lemma ExactIffCurrent(s: State, t: nat)
    requires Inv(s) && IsOpen(s, t) && !Stale(s, t) && Replies(s.txs[t].pending) > 0
    ensures var c := s.txs[t].conv;
      Exact(Next(s, Commit(t)).convs[c]) <==> Exact(s.convs[c]) && s.txs[t].loaded == s.convs[c].turnIndex
  {
    UniqueIffFresh(s.convs, s.txs[t]);
    RepliesConcat(s.convs[s.txs[t].conv].entries, s.txs[t].pending);
  }

  // A step that commits replies to `c` commits a transaction that loaded the current turn index.
  predicate LoadedCurrent(s: State, step: Step, c: nat) {
    (&& step.Commit? && IsOpen(s, step.tx) && s.txs[step.tx].conv == c
     && !Stale(s, step.tx) && Replies(s.txs[step.tx].pending) > 0)
    ==> s.txs[step.tx].loaded == s.convs[c].turnIndex
  }

  predicate AllLoadedCurrent(s: State, steps: seq<Step>, c: nat) {
    || steps == []
    || (var n := |steps| - 1; AllLoadedCurrent(s, steps[..n], c) && LoadedCurrent(Run(s, steps[..n]), steps[n], c))
  }

  // The index of conversation `c`, if there is one yet, is exact.
  predicate ExactAt(s: State, c: nat) {
    c < |s.convs| ==> Exact(s.convs[c])
  }

  lemma StepExact(s: State, step: Step, c: nat)
    requires Inv(s)
    ensures ExactAt(Next(s, step), c) <==> ExactAt(s, c) && LoadedCurrent(s, step, c)
  {
    if step.Commit? && IsOpen(s, step.tx) {
      UniqueIffFresh(s.convs, s.txs[step.tx]);
      RepliesConcat(s.convs[s.txs[step.tx].conv].entries, s.txs[step.tx].pending);
      if !Stale(s, step.tx) && Replies(s.txs[step.tx].pending) > 0 { ExactIffCurrent(s, step.tx); }
    }
  }

  // Main result: over any run, a turn index is exact at the end if and only if it was exact at the
  // start and every commit of replies was by a transaction that had loaded the index of the moment.
  // So a lost reply is never made up for.
  lemma {:induction false} RunExactIffAllCurrent(s: State, steps: seq<Step>, c: nat)
    requires Inv(s)
    ensures Inv(Run(s, steps))
    ensures ExactAt(Run(s, steps), c) <==> ExactAt(s, c) && AllLoadedCurrent(s, steps, c)
  {
    if steps != [] {
      RunExactIffAllCurrent(s, steps[..|steps| - 1], c);
      NextKeeps(Run(s, steps[..|steps| - 1]), steps[|steps| - 1]);
      StepExact(Run(s, steps[..|steps| - 1]), steps[|steps| - 1], c);
    }
  }

  // ---- The turn index, from the schedule alone -----------------------------------------------------------------

  const EMPTY := State([], [])

  function At(steps: seq<Step>, n: nat): State
    requires n <= |steps|
  {
    Run(EMPTY, steps[..n])
  }

  // Step `p` begins transaction `t`.
  ghost predicate BeginsAt(steps: seq<Step>, p: int, t: nat) {
    0 <= p < |steps| && steps[p].Begin? && |At(steps, p).txs| == t && |At(steps, p + 1).txs| == t + 1
  }

  // Step `q` commits replies of transaction `t` to conversation `c`.
  ghost predicate RepliesAt(steps: seq<Step>, q: int, t: nat, c: nat) {
    && 0 <= q < |steps| && steps[q] == Commit(t) && IsOpen(At(steps, q), t) && At(steps, q).txs[t].conv == c
    && Replies(At(steps, q).txs[t].pending) > 0
    && t < |At(steps, q + 1).txs| && At(steps, q + 1).txs[t].status == Committed
  }

  // Between its beginning and its replying commit, another transaction committed replies.
  ghost predicate OvertakenAt(steps: seq<Step>, c: nat, p: int, m: int, q: int, t: nat, u: nat) {
    p < m < q && BeginsAt(steps, p, t) && RepliesAt(steps, m, u, c) && RepliesAt(steps, q, t, c)
  }

  ghost predicate Overtaken(steps: seq<Step>, c: nat) {
    exists p, m, q, t, u :: OvertakenAt(steps, c, p, m, q, t, u)
  }

  lemma AtPrefix(steps: seq<Step>, n: nat, m: nat)
    requires m <= n <= |steps|
    ensures At(steps[..n], m) == At(steps, m)
  {
    assert steps[..n][..m] == steps[..m];
  }

  lemma AtNext(steps: seq<Step>, n: nat)
    requires n < |steps|
    ensures At(steps, n + 1) == Next(At(steps, n), steps[n])
  {
    assert steps[..n + 1][..n] == steps[..n];
  }

  lemma AtIsRight(steps: seq<Step>, n: nat)
    requires n <= |steps|
    ensures Inv(At(steps, n))
  {
    RunKeeps(steps[..n]);
  }

  // What later states keep of a transaction and of a conversation.
  ghost predicate Later(s: State, after: State) {
    && |s.txs| <= |after.txs| && |s.convs| <= |after.convs|
    && (forall t | 0 <= t < |s.txs| ::
          && after.txs[t].conv == s.txs[t].conv && after.txs[t].loaded == s.txs[t].loaded
          && (after.txs[t].status == Open ==> s.txs[t].status == Open))
    && (forall c | 0 <= c < |s.convs| ::
          && after.convs[c].inherited == s.convs[c].inherited
          && Replies(after.convs[c].entries) >= Replies(s.convs[c].entries))
  }

  lemma NextIsLater(s: State, step: Step)
    ensures Later(s, Next(s, step))
  {
    if step.Commit? && IsOpen(s, step.tx) {
      RepliesConcat(s.convs[s.txs[step.tx].conv].entries, s.txs[step.tx].pending);
    }
  }

  lemma {:induction false} AtIsLater(steps: seq<Step>, n: nat, m: nat)
    requires n <= m <= |steps|
    ensures Later(At(steps, n), At(steps, m))
    decreases m
  {
    if n < m {
      AtIsLater(steps, n, m - 1);
      AtNext(steps, m - 1);
      NextIsLater(At(steps, m - 1), steps[m - 1]);
      hide At, Next;
    }
  }

  // A transaction loads the turn index that is committed when it begins.
  lemma {:induction false} LoadsAtBegin(steps: seq<Step>, n: nat, t: nat) returns (p: nat)
    requires n <= |steps| && t < |At(steps, n).txs|
    ensures p < n && BeginsAt(steps, p, t)
    ensures var tx := At(steps, n).txs[t];
      tx.conv < |At(steps, p).convs| && tx.loaded == At(steps, p).convs[tx.conv].turnIndex
  {
    AtNext(steps, n - 1);
    var before := At(steps, n - 1);
    if t < |before.txs| {
      NextIsLater(before, steps[n - 1]);
      p := LoadsAtBegin(steps, n - 1, t);
    } else {
      p := n - 1;
    }
  }

  // A transaction begins once.
  lemma BeginsOnce(steps: seq<Step>, p: int, q: int, t: nat)
    requires BeginsAt(steps, p, t) && BeginsAt(steps, q, t)
    ensures p == q
  {
    if p < q { AtIsLater(steps, p + 1, q); }
    if q < p { AtIsLater(steps, q + 1, p); }
  }

  // Where no replies are committed, the turn index stays.
  lemma {:induction false} IndexStays(steps: seq<Step>, p: nat, q: nat, c: nat)
    requires p <= q <= |steps| && c < |At(steps, p).convs|
    requires forall m, u | p <= m < q :: !RepliesAt(steps, m, u, c)
    ensures c < |At(steps, q).convs| && At(steps, q).convs[c].turnIndex == At(steps, p).convs[c].turnIndex
    decreases q
  {
    if p < q {
      IndexStays(steps, p, q - 1, c);
      AtNext(steps, q - 1);
      var step := steps[q - 1];
      if step.Commit? { assert !RepliesAt(steps, q - 1, step.tx, c); }
    }
  }

  lemma RepliesGrow(steps: seq<Step>, p: nat, m: nat, q: nat, u: nat, c: nat)
    requires p <= m < q <= |steps| && RepliesAt(steps, m, u, c) && c < |At(steps, p).convs|
    ensures c < |At(steps, q).convs| && At(steps, q).convs[c].inherited == At(steps, p).convs[c].inherited
    ensures Replies(At(steps, q).convs[c].entries) > Replies(At(steps, p).convs[c].entries)
  {
    AtIsLater(steps, p, m);
    AtIsLater(steps, m + 1, q);
    AtNext(steps, m);
    var s := At(steps, m);
    RepliesConcat(s.convs[c].entries, s.txs[u].pending);
    hide At;
  }

  // Another transaction has committed replies since `t` began.
  ghost predicate RepliedSince(steps: seq<Step>, c: nat, q: int, t: nat) {
    exists p, m, u :: p < m < q && BeginsAt(steps, p, t) && RepliesAt(steps, m, u, c)
  }

  // In an exact state, the loaded index is current exactly when nothing was committed since.
  lemma CurrentIffAlone(steps: seq<Step>, q: nat, t: nat, c: nat)
    requires q < |steps| && t < |At(steps, q).txs| && At(steps, q).txs[t].conv == c
    requires c < |At(steps, q).convs| && Exact(At(steps, q).convs[c])
    ensures At(steps, q).txs[t].loaded == At(steps, q).convs[c].turnIndex <==> !RepliedSince(steps, c, q, t)
  {
    var p := LoadsAtBegin(steps, q, t);
    AtIsRight(steps, p);
    assert ConvoIsRight(At(steps, p).convs[c]);
    hide At, Inv;
    if RepliedSince(steps, c, q, t) {
      var p', m, u :| p' < m < q && BeginsAt(steps, p', t) && RepliesAt(steps, m, u, c);
      BeginsOnce(steps, p, p', t);
      RepliesGrow(steps, p, m, q, u, c);
    } else {
      forall m, u | p <= m < q ensures !RepliesAt(steps, m, u, c) {}
      IndexStays(steps, p, q, c);
    }
  }

  lemma CommitIsCurrentIffAlone(steps: seq<Step>, c: nat)
    requires steps != [] && ExactAt(At(steps, |steps| - 1), c)
    ensures var n := |steps| - 1;
      LoadedCurrent(At(steps, n), steps[n], c) <==>
        forall t :: RepliesAt(steps, n, t, c) ==> !RepliedSince(steps, c, n, t)
  {
    var n := |steps| - 1;
    var s, step := At(steps, n), steps[n];
    AtIsRight(steps, n);
    AtNext(steps, n);
    if step.Commit? && IsOpen(s, step.tx) {
      CommitsIffFresh(s, step.tx);
      if s.txs[step.tx].conv == c { CurrentIffAlone(steps, n, step.tx, c); }
    }
    hide At, Inv, Next;
  }

  lemma SamePrefix(steps: seq<Step>, n: nat, c: nat)
    requires n < |steps|
    ensures forall p: int, t: nat | p < n :: BeginsAt(steps[..n], p, t) <==> BeginsAt(steps, p, t)
    ensures forall q: int, t: nat | q < n :: RepliesAt(steps[..n], q, t, c) <==> RepliesAt(steps, q, t, c)
  {
    forall m: nat | m <= n ensures At(steps[..n], m) == At(steps, m) { AtPrefix(steps, n, m); }
    hide At;
  }

  // Overtaking is at the last step or before it.
  lemma OvertakenSplits(steps: seq<Step>, c: nat)
    requires steps != []
    ensures var n := |steps| - 1;
      Overtaken(steps, c) <==>
        Overtaken(steps[..n], c) || exists t :: RepliesAt(steps, n, t, c) && RepliedSince(steps, c, n, t)
  {
    if Overtaken(steps, c) {
      var p, m, q, t, u :| OvertakenAt(steps, c, p, m, q, t, u);
      hide OvertakenAt, RepliesAt, RepliedSince;
      OvertakenNowOrBefore(steps, c, p, m, q, t, u);
    }
    if Overtaken(steps[..|steps| - 1], c) {
      var p, m, q, t, u :| OvertakenAt(steps[..|steps| - 1], c, p, m, q, t, u);
      hide OvertakenAt;
      OvertakenBefore(steps, c, p, m, q, t, u);
    }
    var n := |steps| - 1;
    if t :| RepliesAt(steps, n, t, c) && RepliedSince(steps, c, n, t) {
      hide RepliesAt, RepliedSince, OvertakenAt;
      OvertakenNow(steps, c, t);
    }
  }

  lemma OvertakenBefore(steps: seq<Step>, c: nat, p: int, m: int, q: int, t: nat, u: nat)
    requires steps != [] && OvertakenAt(steps[..|steps| - 1], c, p, m, q, t, u)
    ensures OvertakenAt(steps, c, p, m, q, t, u)
  {
    InRange(steps[..|steps| - 1], c, q, t);
    hide BeginsAt, RepliesAt;
    SamePrefix(steps, |steps| - 1, c);
  }

  lemma OvertakenNow(steps: seq<Step>, c: nat, t: nat)
    requires steps != [] && RepliesAt(steps, |steps| - 1, t, c) && RepliedSince(steps, c, |steps| - 1, t)
    ensures Overtaken(steps, c)
  {
    hide BeginsAt, RepliesAt;
    var p, m, u :| p < m < |steps| - 1 && BeginsAt(steps, p, t) && RepliesAt(steps, m, u, c);
    assert OvertakenAt(steps, c, p, m, |steps| - 1, t, u);
  }

  lemma InRange(steps: seq<Step>, c: nat, q: int, t: nat)
    requires RepliesAt(steps, q, t, c)
    ensures 0 <= q < |steps|
  {
  }

  lemma OvertakenNowOrBefore(steps: seq<Step>, c: nat, p: int, m: int, q: int, t: nat, u: nat)
    requires steps != [] && OvertakenAt(steps, c, p, m, q, t, u)
    ensures var n := |steps| - 1;
      if q < n then OvertakenAt(steps[..n], c, p, m, q, t, u)
      else q == n && RepliesAt(steps, n, t, c) && RepliedSince(steps, c, n, t)
  {
    InRange(steps, c, q, t);
    hide BeginsAt, RepliesAt;
    if q < |steps| - 1 { SamePrefix(steps, |steps| - 1, c); }
  }

  // Main result: the turn index of a conversation is exact after a run if and only if no transaction
  // was overtaken, that is, committed replies after another had done so since it began.
  lemma {:induction false} ExactIffNotOvertaken(steps: seq<Step>, c: nat)
    ensures ExactAt(Run(EMPTY, steps), c) <==> !Overtaken(steps, c)
  {
    assert steps[..|steps|] == steps;
    if steps != [] {
      var n := |steps| - 1;
      ExactIffNotOvertaken(steps[..n], c);
      AtNext(steps, n);
      AtIsRight(steps, n);
      StepExact(At(steps, n), steps[n], c);
      OvertakenSplits(steps, c);
      hide Overtaken, RepliesAt, RepliedSince, LoadedCurrent, Next, ExactAt;
      if ExactAt(At(steps, n), c) { CommitIsCurrentIffAlone(steps, c); }
    }
  }

  // The index counts from the value that the conversation was created with.
  lemma CountsFromCreation(steps: seq<Step>, p: nat)
    requires p < |steps| && steps[p].Create?
    ensures var c, after := |At(steps, p).convs|, Run(EMPTY, steps);
      c < |after.convs| && after.convs[c].inherited == steps[p].inherited
  {
    AtNext(steps, p);
    AtIsLater(steps, p + 1, |steps|);
    assert steps[..|steps|] == steps;
  }

  // The replies of a log are its sent messages.
  lemma {:induction false} RepliesAreSent(entries: seq<Entry>)
    ensures Replies(entries) == |set i | 0 <= i < |entries| && entries[i].kind == MessageSent|
  {
    if entries != [] {
      var n := |entries| - 1;
      RepliesAreSent(entries[..n]);
      var before := set i | 0 <= i < n && entries[..n][i].kind == MessageSent;
      var all := set i | 0 <= i < |entries| && entries[i].kind == MessageSent;
      assert all == if entries[n].kind == MessageSent then before + {n} else before;
    }
  }

  // No two transactions are ever open at once.
  ghost predicate Serial(steps: seq<Step>) {
    forall n: nat, t, u | n <= |steps| && IsOpen(At(steps, n), t) && IsOpen(At(steps, n), u) :: t == u
  }

  // So in a run without overlapping transactions every reply is counted.
  lemma SerialIsExact(steps: seq<Step>, c: nat)
    requires Serial(steps)
    ensures ExactAt(Run(EMPTY, steps), c)
  {
    if Overtaken(steps, c) {
      var p, m, q, t, u :| OvertakenAt(steps, c, p, m, q, t, u);
      StaysOpenUntil(steps, p, m, q, t, u, c);
    }
    ExactIffNotOvertaken(steps, c);
  }

  lemma StaysOpenUntil(steps: seq<Step>, p: int, m: int, q: int, t: nat, u: nat, c: nat)
    requires OvertakenAt(steps, c, p, m, q, t, u)
    ensures IsOpen(At(steps, m), t) && IsOpen(At(steps, m), u) && t != u
  {
    AtIsLater(steps, p + 1, m);
    AtIsLater(steps, m, q);
    AtIsLater(steps, m + 1, q);
    AtIsRight(steps, m);
    assert TxIsRight(At(steps, m).convs, At(steps, m).txs[t]);
  }

  lemma OnlyCommitsWrite(s: State, step: Step, c: nat)
    requires c < |s.convs| && !step.Commit?
    ensures c < |Next(s, step).convs| && Next(s, step).convs[c] == s.convs[c]
  {
  }

  // The numbers' uniqueness does not prevent a lost update: of two idle transactions that loaded the
  // same conversation, the second replies and commits after the first, and the index is one short.
  lemma UpdateMayBeLost(s: State, t: nat, u: nat)
    requires Inv(s) && IsOpen(s, t) && IsOpen(s, u) && t != u && s.txs[t].conv == s.txs[u].conv
    requires s.txs[t].pending == [] && s.txs[u].pending == []
    requires Exact(s.convs[s.txs[t].conv])
    requires s.txs[t].loaded == s.txs[u].loaded == s.convs[s.txs[t].conv].turnIndex
    ensures var after := Replied(Replied(s, t), u);
      && after.txs[t].status == Committed && after.txs[u].status == Committed
      && after.convs[s.txs[t].conv].turnIndex == s.convs[s.txs[t].conv].turnIndex + 1
      && |after.convs[s.txs[t].conv].entries| == |s.convs[s.txs[t].conv].entries| + 2
      && !Exact(after.convs[s.txs[t].conv])
  {
    ReplyCommits(s, t);
    ReplyCommits(Replied(s, t), u);
  }

  // An idle transaction replies and commits.
  function Replied(s: State, t: nat): State {
    Next(Next(s, Append(t, MessageSent)), Commit(t))
  }

  lemma ReplyCommits(s: State, t: nat)
    requires Inv(s) && IsOpen(s, t) && s.txs[t].pending == [] && Exact(s.convs[s.txs[t].conv])
    ensures var c, after := s.txs[t].conv, Replied(s, t);
      && Inv(after) && |after.txs| == |s.txs| && |after.convs| == |s.convs|
      && after.txs[t].status == Committed && (forall u | 0 <= u < |s.txs| && u != t :: after.txs[u] == s.txs[u])
      && |after.convs[c].entries| == |s.convs[c].entries| + 1 && after.convs[c].turnIndex == s.txs[t].loaded + 1
      && (Exact(after.convs[c]) <==> s.txs[t].loaded == s.convs[c].turnIndex)
  {
    var now := Next(s, Append(t, MessageSent));
    NextKeeps(s, Append(t, MessageSent));
    NextKeeps(now, Commit(t));
    assert TxIsRight(s.convs, s.txs[t]) && ConvoIsRight(s.convs[s.txs[t].conv]);
    NextNumber(s.convs[s.txs[t].conv].entries, []);
    SingleRow(now.txs[t].pending);
    assert TxIsRight(now.convs, now.txs[t]);
    hide Inv;
    CommitsIffFresh(now, t);
    ExactIffCurrent(now, t);
  }

  lemma SingleRow(pending: seq<Entry>)
    requires |pending| == 1 && pending[0].kind == MessageSent
    ensures Replies(pending) == 1
  {
  }
}
