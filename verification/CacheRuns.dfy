/** Whole runs of the prompt cache, across restarts: a map with expiry, totals, and break detection. */
module CacheRuns {
  import opened Text
  import opened StreamTypes
  import opened PromptCaching

  datatype Op =
    | Lookup(request: Request, now: nat, later: nat)
    | RecordResponse(request: Request, response: MessageResponse, now: nat, later: nat)
    | RecordUsage(request: Request, usage: Usage, now: nat)
    | Reopen(config: Config)

  datatype Outcome =
    | Found(response: Option<MessageResponse>)
    | Noted(event: Option<BreakEvent>, stats: Stats)
    | Opened

  function Step(c: Cache, op: Op): Cache {
    match op
    case Lookup(r, now, later) => LookedUp(c, r, now, later)
    case RecordResponse(r, response, now, later) => Recorded(c, r, response.usage, Some(response), now, later)
    case RecordUsage(r, usage, now) => Recorded(c, r, usage, None, now, now)
    case Reopen(config) => Open(c.files, config)
  }

  function Answer(c: Cache, op: Op): Outcome {
    match op
    case Lookup(r, now, _) => Found(ResponseOf(Fresh(c, r.hash, now)))
    case RecordResponse(r, response, now, _) =>
      Noted(DetectBreak(c.config, c.previous, FromUsage(r, response.usage, now)), Step(c, op).stats)
    case RecordUsage(r, usage, now) =>
      Noted(DetectBreak(c.config, c.previous, FromUsage(r, usage, now)), Step(c, op).stats)
    case Reopen(_) => Opened
  }

  function Run(c: Cache, ops: seq<Op>): Cache {
    if ops == [] then c else Step(Run(c, ops[..|ops| - 1]), ops[|ops| - 1])
  }

  // --- Restarts ---

  /** What is in memory is what reopening the directory would load. */
  predicate Synced(c: Cache) {
    c == Open(c.files, c.config)
  }

  lemma StepStaysSynced(c: Cache, op: Op)
    requires Synced(c)
    ensures Synced(Step(c, op))
  {
    hide DetectBreak, Fresh, Charge, CountBreak;
  }

  lemma {:induction false} RunStaysSynced(c: Cache, ops: seq<Op>)
    requires Synced(c)
    ensures Synced(Run(c, ops))
  {
    hide Step;
    if ops != [] {
      RunStaysSynced(c, ops[..|ops| - 1]);
      StepStaysSynced(Run(c, ops[..|ops| - 1]), ops[|ops| - 1]);
    }
  }

  /** Reopening after any run gives the same totals and the same last prompt. */
  lemma ReopenRestores(files: Files, config: Config, ops: seq<Op>, other: Config)
    ensures var c := Run(Open(files, config), ops);
            Open(c.files, other) == c.(config := other)
  {
    RunStaysSynced(Open(files, config), ops);
  }

  function Answers(c: Cache, ops: seq<Op>): seq<Outcome> {
    if ops == [] then []
    else
      var init, last := ops[..|ops| - 1], ops[|ops| - 1];
      if last.Reopen? then Answers(c, init) else Answers(c, init) + [Answer(Run(c, init), last)]
  }

  function WithoutReopens(ops: seq<Op>): seq<Op> {
    if ops == [] then []
    else
      var init, last := ops[..|ops| - 1], ops[|ops| - 1];
      if last.Reopen? then WithoutReopens(init) else WithoutReopens(init) + [last]
  }

  predicate SameConfig(ops: seq<Op>, config: Config) {
    forall i :: 0 <= i < |ops| && ops[i].Reopen? ==> ops[i].config == config
  }

  lemma StepKeepsConfig(c: Cache, op: Op)
    requires op.Reopen? ==> op.config == c.config
    ensures Step(c, op).config == c.config
  {
    hide DetectBreak, Fresh, Charge, CountBreak;
  }

  /** Restarting the program any number of times changes no answer and no state. */
  lemma {:induction false} RestartsInvisible(c: Cache, ops: seq<Op>)
    requires Synced(c) && SameConfig(ops, c.config)
    ensures Run(c, ops) == Run(c, WithoutReopens(ops)) && Run(c, ops).config == c.config
    ensures Answers(c, ops) == Answers(c, WithoutReopens(ops))
  {
    hide Step, Answer;
    if ops != [] {
      var init, last := ops[..|ops| - 1], ops[|ops| - 1];
      RestartsInvisible(c, init);
      StepKeepsConfig(Run(c, init), last);
      RunStaysSynced(c, init);
      if last.Reopen? {
        ReopenStep(Run(c, init), last);
      } else {
        var kept := WithoutReopens(init) + [last];
        assert kept[..|kept| - 1] == WithoutReopens(init);
      }
    }
  }

  lemma ReopenStep(c: Cache, op: Op)
    requires Synced(c) && op == Reopen(c.config)
    ensures Step(c, op) == c
  {
  }

  // --- A map with expiry ---

  /** What was last written under a hash: by the run, or before it. */
  function LastWritten(start: map<string, Entry>, ops: seq<Op>, hash: string): Option<Entry> {
    if ops == [] then (if hash in start then Some(start[hash]) else None)
    else
      var last := ops[|ops| - 1];
      if last.RecordResponse? && last.request.hash == hash then
        Some(Entry(last.later, FINGERPRINT_VERSION, last.response))
      else LastWritten(start, ops[..|ops| - 1], hash)
  }

  /** Every lookup since then found it still live. */
  predicate FoundLiveSince(c: Cache, ops: seq<Op>, hash: string) {
    ops != [] ==>
      var init, last := ops[..|ops| - 1], ops[|ops| - 1];
      if last.RecordResponse? && last.request.hash == hash then true
      else
        && FoundLiveSince(c, init, hash)
        && (last.Lookup? && last.request.hash == hash && LastWritten(c.files.entries, init, hash).Some? ==>
              Live(LastWritten(c.files.entries, init, hash).value, last.now, Run(c, init).config.completionTtl))
  }

  /** The file under a hash, after any run. */
  function Kept(c: Cache, hash: string): Option<Entry> {
    if hash in c.files.entries then Some(c.files.entries[hash]) else None
  }

  lemma StepKept(c: Cache, op: Op, hash: string)
    ensures Kept(Step(c, op), hash) ==
              if op.RecordResponse? && op.request.hash == hash then
                Some(Entry(op.later, FINGERPRINT_VERSION, op.response))
              else if op.Lookup? && op.request.hash == hash && Kept(c, hash).Some?
                && !Live(Kept(c, hash).value, op.now, c.config.completionTtl) then None
              else Kept(c, hash)
  {
    hide DetectBreak, Charge, CountBreak, Live;
  }

  /** Exactly what a lookup finds on disk after any run, whatever the clock and the settings did. */
  lemma {:induction false} KeptIff(c: Cache, ops: seq<Op>, hash: string)
    ensures Kept(Run(c, ops), hash) ==
              if FoundLiveSince(c, ops, hash) then LastWritten(c.files.entries, ops, hash) else None
  {
    hide Step, Live;
    if ops != [] {
      var init, last := ops[..|ops| - 1], ops[|ops| - 1];
      KeptIff(c, init, hash);
      StepKept(Run(c, init), last, hash);
    }
  }

  /** `k` is the last completion recorded under the hash. */
  ghost predicate LastRecord(ops: seq<Op>, hash: string, k: nat) {
    && k < |ops| && ops[k].RecordResponse? && ops[k].request.hash == hash
    && forall j :: k < j < |ops| ==> !(ops[j].RecordResponse? && ops[j].request.hash == hash)
  }

  ghost predicate NoRecord(ops: seq<Op>, hash: string) {
    forall j :: 0 <= j < |ops| ==> !(ops[j].RecordResponse? && ops[j].request.hash == hash)
  }

  /** No lookup reads an earlier time than a lookup before it. */
  ghost predicate Steady(ops: seq<Op>, now: nat) {
    && (forall i, j :: 0 <= i < j < |ops| && ops[i].Lookup? && ops[j].Lookup? ==> ops[i].now <= ops[j].now)
    && (forall i :: 0 <= i < |ops| && ops[i].Lookup? ==> ops[i].now <= now)
  }

  ghost predicate SameTtl(ops: seq<Op>, ttl: nat) {
    forall i :: 0 <= i < |ops| && ops[i].Reopen? ==> ops[i].config.completionTtl == ttl
  }

  lemma {:induction false} RunTtl(c: Cache, ops: seq<Op>)
    requires SameTtl(ops, c.config.completionTtl)
    ensures Run(c, ops).config.completionTtl == c.config.completionTtl
  {
    hide Step;
    if ops != [] {
      var init, last := ops[..|ops| - 1], ops[|ops| - 1];
      RunTtl(c, init);
      StepTtl(Run(c, init), last);
    }
  }

  lemma StepTtl(c: Cache, op: Op)
    ensures Step(c, op).config == if op.Reopen? then op.config else c.config
  {
    hide DetectBreak, Fresh, Charge, CountBreak;
  }

  lemma LiveEarlier(entry: Entry, t: nat, now: nat, ttl: nat)
    requires t <= now && Live(entry, now, ttl)
    ensures Live(entry, t, ttl)
  {
  }

  /** An entry that is live now was live at every lookup before. */
  lemma {:induction false} LiveNowLiveBefore(c: Cache, ops: seq<Op>, hash: string, now: nat)
    requires Steady(ops, now) && SameTtl(ops, c.config.completionTtl)
    requires LastWritten(c.files.entries, ops, hash).Some?
    requires Live(LastWritten(c.files.entries, ops, hash).value, now, c.config.completionTtl)
    ensures FoundLiveSince(c, ops, hash)
  {
    hide Step, Live, Run;
    if ops != [] {
      var init, last := ops[..|ops| - 1], ops[|ops| - 1];
      if !(last.RecordResponse? && last.request.hash == hash) {
        assert Steady(init, now) && SameTtl(init, c.config.completionTtl);
        LiveNowLiveBefore(c, init, hash, now);
        RunTtl(c, init);
        if last.Lookup? {
          LiveEarlier(LastWritten(c.files.entries, init, hash).value, last.now, now, c.config.completionTtl);
        }
      }
    }
  }

  lemma {:induction false} LastRecordIsLastWritten(start: map<string, Entry>, ops: seq<Op>, hash: string)
    ensures forall k: nat :: LastRecord(ops, hash, k) ==>
              LastWritten(start, ops, hash) == Some(Entry(ops[k].later, FINGERPRINT_VERSION, ops[k].response))
    ensures NoRecord(ops, hash) ==>
              LastWritten(start, ops, hash) == if hash in start then Some(start[hash]) else None
  {
    if ops != [] {
      var init, last := ops[..|ops| - 1], ops[|ops| - 1];
      LastRecordIsLastWritten(start, init, hash);
      forall k: nat | LastRecord(ops, hash, k)
        ensures LastWritten(start, ops, hash) == Some(Entry(ops[k].later, FINGERPRINT_VERSION, ops[k].response))
      {
        if k < |init| {
          assert LastRecord(init, hash, k);
        }
      }
    }
  }

  /**
   * The cache is a map with expiry: with a clock that never goes back, a lookup returns the response
   * last recorded under the hash if that is younger than the time to live, and nothing otherwise.
   */
  lemma LookupIsTtlMap(c: Cache, ops: seq<Op>, request: Request, now: nat, later: nat)
    requires Steady(ops, now) && SameTtl(ops, c.config.completionTtl)
    ensures var answer := Answer(Run(c, ops), Lookup(request, now, later));
            && (forall k: nat :: LastRecord(ops, request.hash, k) ==>
                  answer == Found(if Less(now, ops[k].later) < AsSecs(c.config.completionTtl)
                                  then Some(ops[k].response) else None))
            && (NoRecord(ops, request.hash) ==>
                  answer == Found(ResponseOf(Fresh(c, request.hash, now))))
  {
    var h := request.hash;
    KeptIff(c, ops, h);
    LastRecordIsLastWritten(c.files.entries, ops, h);
    RunTtl(c, ops);
    AnswerFromKept(Run(c, ops), request, now, later);
    AnswerFromKept(c, request, now, later);
    hide Run, Answer, LastWritten, FoundLiveSince, Kept, Live;
    var last := LastWritten(c.files.entries, ops, h);
    if last.Some? && Live(last.value, now, c.config.completionTtl) {
      LiveNowLiveBefore(c, ops, h, now);
    }
    LiveEntry(ops, c.config.completionTtl, now);
    KeptStart(c, h);
  }

  lemma KeptStart(c: Cache, hash: string)
    ensures Kept(c, hash) == if hash in c.files.entries then Some(c.files.entries[hash]) else None
  {
  }

  lemma AnswerFromKept(c: Cache, request: Request, now: nat, later: nat)
    ensures var kept := Kept(c, request.hash);
            Answer(c, Lookup(request, now, later)) == Found(ResponseOf(Fresh(c, request.hash, now)))
            && Answer(c, Lookup(request, now, later)) ==
               Found(if kept.Some? && Live(kept.value, now, c.config.completionTtl)
                     then Some(kept.value.response) else None)
  {
    hide Live;
  }

  lemma LiveEntry(ops: seq<Op>, ttl: nat, now: nat)
    ensures forall k :: 0 <= k < |ops| && ops[k].RecordResponse? ==>
              (Live(Entry(ops[k].later, FINGERPRINT_VERSION, ops[k].response), now, ttl)
               <==> Less(now, ops[k].later) < AsSecs(ttl))
  {
  }

  // --- Totals ---

  /** The usage an operation adds to the totals: a hit's stored usage, or the recorded one. */
  function Charged(c: Cache, op: Op): Option<Usage> {
    match op
    case Lookup(r, now, _) =>
      (match Fresh(c, r.hash, now) case Some(e) => Some(e.response.usage) case None => None)
    case RecordResponse(_, response, _, _) => Some(response.usage)
    case RecordUsage(_, usage, _) => Some(usage)
    case Reopen(_) => None
  }

  /** Counts and sums over the answers of a run. */
  datatype Tally = Tally(
    answered: nat, unanswered: nat, records: nat, written: nat, expected: nat, unexpected: nat,
    creation: nat, read: nat)

  function Bit(b: bool): nat {
    if b then 1 else 0
  }

  function Broke(c: Cache, op: Op, unexpected: bool): bool {
    var answer := Answer(c, op);
    answer.Noted? && answer.event.Some? && answer.event.value.unexpected == unexpected
  }

  function TallyOne(c: Cache, op: Op): Tally {
    var answer := Answer(c, op);
    var charged := Charged(c, op);
    Tally(
      Bit(answer.Found? && answer.response.Some?), Bit(answer.Found? && answer.response.None?),
      Bit(answer.Noted?), Bit(op.RecordResponse?), Bit(Broke(c, op, false)), Bit(Broke(c, op, true)),
      if charged.Some? then charged.value.cacheCreationInputTokens else 0,
      if charged.Some? then charged.value.cacheReadInputTokens else 0)
  }

  function Plus(a: Tally, b: Tally): Tally {
    Tally(a.answered + b.answered, a.unanswered + b.unanswered, a.records + b.records, a.written + b.written,
          a.expected + b.expected, a.unexpected + b.unexpected, a.creation + b.creation, a.read + b.read)
  }

  function TallyRun(c: Cache, ops: seq<Op>): Tally {
    if ops == [] then Tally(0, 0, 0, 0, 0, 0, 0, 0)
    else
      var init := ops[..|ops| - 1];
      Plus(TallyRun(c, init), TallyOne(Run(c, init), ops[|ops| - 1]))
  }

  function TallyOf(s: Stats): Tally {
    Tally(s.hits, s.misses, s.tracked, s.writes, s.expectedBreaks, s.unexpectedBreaks, s.totalCreation, s.totalRead)
  }

  function LookupCount(ops: seq<Op>): nat {
    if ops == [] then 0 else LookupCount(ops[..|ops| - 1]) + Bit(ops[|ops| - 1].Lookup?)
  }

  lemma RecordedTally(c: Cache, request: Request, usage: Usage, response: Option<MessageResponse>,
                      now: nat, later: nat)
    ensures var event := DetectBreak(c.config, c.previous, FromUsage(request, usage, now));
            TallyOf(Recorded(c, request, usage, response, now, later).stats) ==
              Plus(TallyOf(c.stats),
                   Tally(0, 0, 1, Bit(response.Some?), Bit(event.Some? && !event.value.unexpected),
                         Bit(event.Some? && event.value.unexpected),
                         usage.cacheCreationInputTokens, usage.cacheReadInputTokens))
  {
    hide DetectBreak;
  }

  lemma LookedUpTally(c: Cache, request: Request, now: nat, later: nat)
    ensures var entry := Fresh(c, request.hash, now);
            TallyOf(LookedUp(c, request, now, later).stats) ==
              Plus(TallyOf(c.stats),
                   Tally(Bit(entry.Some?), Bit(entry.None?), 0, 0, 0, 0,
                         if entry.Some? then entry.value.response.usage.cacheCreationInputTokens else 0,
                         if entry.Some? then entry.value.response.usage.cacheReadInputTokens else 0))
  {
    hide Fresh;
  }

  lemma LookupStepTally(c: Cache, r: Request, now: nat, later: nat)
    ensures var op := Lookup(r, now, later);
            TallyOf(Step(c, op).stats) == Plus(TallyOf(c.stats), TallyOne(c, op))
  {
    hide LookedUp, Fresh, TallyOf, Plus;
    LookedUpTally(c, r, now, later);
  }

  lemma RecordResponseTally(c: Cache, r: Request, response: MessageResponse, now: nat, later: nat)
    ensures var op := RecordResponse(r, response, now, later);
            TallyOf(Step(c, op).stats) == Plus(TallyOf(c.stats), TallyOne(c, op))
  {
    hide Recorded, DetectBreak, FromUsage, TallyOf, Plus;
    RecordedTally(c, r, response.usage, Some(response), now, later);
  }

  lemma RecordUsageTally(c: Cache, r: Request, usage: Usage, now: nat)
    ensures var op := RecordUsage(r, usage, now);
            TallyOf(Step(c, op).stats) == Plus(TallyOf(c.stats), TallyOne(c, op))
  {
    hide Recorded, DetectBreak, FromUsage, TallyOf, Plus;
    RecordedTally(c, r, usage, None, now, now);
  }

  lemma ReopenTally(c: Cache, config: Config)
    requires Synced(c)
    ensures TallyOf(Step(c, Reopen(config)).stats) == Plus(TallyOf(c.stats), TallyOne(c, Reopen(config)))
  {
    hide Recorded, LookedUp, DetectBreak, Fresh, TallyOf;
    assert Open(c.files, config).stats == c.stats;
    NothingAdded(TallyOf(c.stats));
  }

  lemma NothingAdded(t: Tally)
    ensures Plus(t, Tally(0, 0, 0, 0, 0, 0, 0, 0)) == t
  {
  }

  lemma StepTally(c: Cache, op: Op)
    requires Synced(c)
    ensures TallyOf(Step(c, op).stats) == Plus(TallyOf(c.stats), TallyOne(c, op))
  {
    hide Step, TallyOne, TallyOf, Synced, Plus;
    match op
    case Lookup(r, now, later) => LookupStepTally(c, r, now, later);
    case RecordResponse(r, response, now, later) => RecordResponseTally(c, r, response, now, later);
    case RecordUsage(r, usage, now) => RecordUsageTally(c, r, usage, now);
    case Reopen(config) => ReopenTally(c, config);
  }

  /** The totals on disk and in memory are the sums over everything the run answered. */
  lemma {:induction false} TotalsAreSums(c: Cache, ops: seq<Op>)
    requires Synced(c)
    ensures TallyOf(Run(c, ops).stats) == Plus(TallyOf(c.stats), TallyRun(c, ops))
    ensures TallyRun(c, ops).answered + TallyRun(c, ops).unanswered == LookupCount(ops)
  {
    hide Step, TallyOne;
    if ops != [] {
      var init, last := ops[..|ops| - 1], ops[|ops| - 1];
      TotalsAreSums(c, init);
      RunStaysSynced(c, init);
      StepTally(Run(c, init), last);
      LookupTally(Run(c, init), last);
    }
  }

  lemma LookupTally(c: Cache, op: Op)
    ensures TallyOne(c, op).answered + TallyOne(c, op).unanswered == Bit(op.Lookup?)
  {
    hide DetectBreak, Fresh, Recorded, Charge;
  }

  // --- The last use ---

  /** A use that was charged: its usage, the hash of its request, and where the answer came from. */
  datatype Use = Use(usage: Usage, hash: string, source: string)

  function UseOf(c: Cache, op: Op): Option<Use> {
    match Charged(c, op)
    case None => None
    case Some(usage) => Some(Use(usage, op.request.hash, if op.Lookup? then "completion-cache" else "api-response"))
  }

  function LastUse(c: Cache, ops: seq<Op>): Option<Use> {
    if ops == [] then None
    else
      var init, last := ops[..|ops| - 1], ops[|ops| - 1];
      var use := UseOf(Run(c, init), last);
      if use.Some? then use else LastUse(c, init)
  }

  /** The totals name this use as the last one. */
  predicate Names(s: Stats, u: Use) {
    && s.lastCreation == Some(u.usage.cacheCreationInputTokens) && s.lastRead == Some(u.usage.cacheReadInputTokens)
    && s.lastRequestHash == Some(u.hash) && s.lastSource == Some(u.source)
  }

  predicate SameLast(s: Stats, t: Stats) {
    && s.lastCreation == t.lastCreation && s.lastRead == t.lastRead
    && s.lastRequestHash == t.lastRequestHash && s.lastSource == t.lastSource
  }

  lemma StepLast(c: Cache, op: Op)
    requires Synced(c)
    ensures var use := UseOf(c, op);
            if use.Some? then Names(Step(c, op).stats, use.value) else SameLast(Step(c, op).stats, c.stats)
  {
    hide DetectBreak, Fresh;
  }

  /** After any run, restarts included, the totals name the last use that was charged. */
  lemma {:induction false} LastUseIsNamed(c: Cache, ops: seq<Op>)
    requires Synced(c)
    ensures var use := LastUse(c, ops);
            if use.Some? then Names(Run(c, ops).stats, use.value) else SameLast(Run(c, ops).stats, c.stats)
  {
    hide Step, UseOf;
    if ops != [] {
      var init, last := ops[..|ops| - 1], ops[|ops| - 1];
      LastUseIsNamed(c, init);
      RunStaysSynced(c, init);
      StepLast(Run(c, init), last);
    }
  }

  // --- Cache breaks ---

  /** The last prompt charged in a run, with its usage, or what was tracked before it. */
  function LastCharged(c: Cache, ops: seq<Op>): Option<Tracked> {
    if ops == [] then c.previous
    else
      var init, last := ops[..|ops| - 1], ops[|ops| - 1];
      var charged := Charged(Run(c, init), last);
      if charged.None? then LastCharged(c, init)
      else Some(FromUsage(last.request, charged.value, if last.Lookup? then last.later else last.now))
  }

  lemma StepPrevious(c: Cache, op: Op)
    requires Synced(c)
    ensures var charged := Charged(c, op);
            Step(c, op).previous ==
              if charged.None? then c.previous
              else Some(FromUsage(op.request, charged.value, if op.Lookup? then op.later else op.now))
  {
    hide DetectBreak, Charge, CountBreak;
  }

  lemma {:induction false} PreviousIsLastCharged(c: Cache, ops: seq<Op>)
    requires Synced(c)
    ensures Run(c, ops).previous == LastCharged(c, ops)
  {
    hide Step, Charged;
    if ops != [] {
      var init, last := ops[..|ops| - 1], ops[|ops| - 1];
      PreviousIsLastCharged(c, init);
      RunStaysSynced(c, init);
      StepPrevious(Run(c, init), last);
    }
  }

  /** The usage and the time of a record, with or without its response. */
  function RecordedUsage(op: Op): Usage
    requires op.RecordResponse? || op.RecordUsage?
  {
    if op.RecordResponse? then op.response.usage else op.usage
  }

  /** The prompt of the last charge was the same, in all parts, under this version of the hashes. */
  predicate SamePrompt(before: Tracked, request: Request) {
    before.version == FINGERPRINT_VERSION && before.fingerprints == request.fingerprints
  }

  /**
   * A record, with or without its response, is a break exactly when the tokens read fell by the
   * configured drop since the last prompt charged in the run, or that prompt was tracked under another
   * version; the break is unexpected exactly when the prompt is the same and young enough.
   */
  lemma BreakIff(c: Cache, ops: seq<Op>, op: Op)
    requires Synced(c) && (op.RecordResponse? || op.RecordUsage?)
    ensures var before, s := LastCharged(c, ops), Run(c, ops);
            var fell := before.Some? && Less(before.value.read, RecordedUsage(op).cacheReadInputTokens) >= s.config.breakMinDrop;
            var young := before.Some? && Less(op.now, before.value.observedAt) <= AsSecs(s.config.promptTtl);
            && (Broke(s, op, true) <==> fell && SamePrompt(before.value, op.request) && young)
            && (Broke(s, op, false) <==>
                  before.Some? && (before.value.version != FINGERPRINT_VERSION
                                   || (fell && !(SamePrompt(before.value, op.request) && young))))
  {
    PreviousIsLastCharged(c, ops);
    hide Run, LastCharged, Recorded, Charged;
    var s := Run(c, ops);
    if s.previous.Some? {
      NothingChanged(s.previous.value.fingerprints, op.request.fingerprints);
    }
  }

  // --- What the totals name last ---

  /** The request of the last lookup of a run. */
  ghost predicate LastLookup(ops: seq<Op>, hash: string) {
    exists k :: 0 <= k < |ops| && ops[k].Lookup? && ops[k].request.hash == hash
                && forall j :: k < j < |ops| ==> !ops[j].Lookup?
  }

  lemma LastLookupStep(ops: seq<Op>, hash: string)
    requires ops != []
    ensures var init, last := ops[..|ops| - 1], ops[|ops| - 1];
            LastLookup(ops, hash) <==> if last.Lookup? then last.request.hash == hash else LastLookup(init, hash)
  {
    var n := |ops| - 1;
    var init, last := ops[..n], ops[n];
    if !last.Lookup? && LastLookup(init, hash) {
      var k :| 0 <= k < n && init[k].Lookup? && init[k].request.hash == hash && forall j :: k < j < n ==> !init[j].Lookup?;
      assert ops[k].Lookup? && forall j :: k < j < n ==> ops[j] == init[j];
    }
    if !last.Lookup? && LastLookup(ops, hash) {
      var k :| 0 <= k <= n && ops[k].Lookup? && ops[k].request.hash == hash && forall j :: k < j <= n ==> !ops[j].Lookup?;
      assert init[k].Lookup? && forall j :: k < j < n ==> ops[j] == init[j];
    }
  }

  lemma StepKey(c: Cache, op: Op)
    requires Synced(c)
    ensures Step(c, op).stats.lastCompletionKey ==
            if op.Lookup? then Some(op.request.hash) else c.stats.lastCompletionKey
  {
    hide DetectBreak, Fresh;
  }

  /** After any run, restarts included, the totals name the request looked up last, found or not. */
  lemma {:induction false} LastLookupIsNamed(c: Cache, ops: seq<Op>, hash: string)
    requires Synced(c)
    ensures LastLookup(ops, hash) ==> Run(c, ops).stats.lastCompletionKey == Some(hash)
    ensures (forall k :: 0 <= k < |ops| ==> !ops[k].Lookup?) ==>
              Run(c, ops).stats.lastCompletionKey == c.stats.lastCompletionKey
  {
    hide Step, LastLookup;
    if ops == [] {
      NoLookups(hash);
    } else {
      var init, last := ops[..|ops| - 1], ops[|ops| - 1];
      LastLookupIsNamed(c, init, hash);
      LastLookupStep(ops, hash);
      RunStaysSynced(c, init);
      StepKey(Run(c, init), last);
    }
  }

  lemma NoLookups(hash: string)
    ensures !LastLookup([], hash)
  {
  }

  /** The break a step reports. */
  function Reported(c: Cache, op: Op): Option<BreakEvent> {
    match Answer(c, op)
    case Noted(event, _) => event
    case _ => None
  }

  /** The last break reported in a run. */
  function LastReported(c: Cache, ops: seq<Op>): Option<BreakEvent> {
    if ops == [] then None
    else
      var init, last := ops[..|ops| - 1], ops[|ops| - 1];
      var event := Reported(Run(c, init), last);
      if event.Some? then event else LastReported(c, init)
  }

  lemma StepReason(c: Cache, op: Op)
    requires Synced(c)
    ensures var event := Reported(c, op);
            Step(c, op).stats.lastBreakReason == if event.Some? then Some(event.value.reason) else c.stats.lastBreakReason
  {
    hide DetectBreak, Fresh;
  }

  /** After any run, restarts included, the totals name the reason of the last break that was reported. */
  lemma {:induction false} LastBreakIsNamed(c: Cache, ops: seq<Op>)
    requires Synced(c)
    ensures var event := LastReported(c, ops);
            Run(c, ops).stats.lastBreakReason == if event.Some? then Some(event.value.reason) else c.stats.lastBreakReason
  {
    hide Step, Reported;
    if ops != [] {
      var init, last := ops[..|ops| - 1], ops[|ops| - 1];
      LastBreakIsNamed(c, init);
      RunStaysSynced(c, init);
      StepReason(Run(c, init), last);
    }
  }
}
