/** The prompt cache: completion files that expire, usage totals, and cache-break detection. */
module PromptCaching {
  import opened Text
  import opened StreamTypes

  const FINGERPRINT_VERSION: u32 := 1

  /** A duration in milliseconds, cut to whole seconds. */
  function AsSecs(millis: nat): nat {
    millis / 1000
  }

  /** Subtraction of unsigned numbers that stops at zero. */
  function Less(a: nat, b: nat): nat {
    if a < b then 0 else a - b
  }

  datatype Config = Config(completionTtl: nat, promptTtl: nat, breakMinDrop: u32)

  datatype Fingerprints = Fingerprints(model: nat, system: nat, tools: nat, messages: nat)

  /** A request as the cache sees it: the hash of the whole and the hashes of its parts. */
  datatype Request = Request(hash: string, fingerprints: Fingerprints)

  datatype Entry = Entry(cachedAt: nat, version: u32, response: MessageResponse)

  datatype Tracked = Tracked(observedAt: nat, version: u32, fingerprints: Fingerprints, read: u32)

  datatype Reason =
    | VersionChanged(before: u32, now: u32)
    | PossibleExpiry(elapsed: nat)
    | Unexplained
    | PromptChanged(parts: seq<string>)

  datatype BreakEvent = BreakEvent(unexpected: bool, reason: Reason, previousRead: u32, currentRead: u32, drop: nat)

  datatype Stats = Stats(
    tracked: nat, hits: nat, misses: nat, writes: nat, expectedBreaks: nat, unexpectedBreaks: nat,
    totalCreation: nat, totalRead: nat, lastCreation: Option<u32>, lastRead: Option<u32>,
    lastRequestHash: Option<string>, lastCompletionKey: Option<string>,
    lastBreakReason: Option<Reason>, lastSource: Option<string>)

  const NO_STATS := Stats(0, 0, 0, 0, 0, 0, 0, 0, None, None, None, None, None, None)

  /** The session directory: one file per completion, one for the totals, one for the last prompt. */
  datatype Files = Files(entries: map<string, Entry>, stats: Option<Stats>, state: Option<Tracked>)

  datatype Cache = Cache(config: Config, stats: Stats, previous: Option<Tracked>, files: Files)

  // --- One operation, on values ---

  function FromUsage(request: Request, usage: Usage, now: nat): Tracked {
    Tracked(now, FINGERPRINT_VERSION, request.fingerprints, usage.cacheReadInputTokens)
  }

  function ChangedParts(a: Fingerprints, b: Fingerprints): seq<string> {
    (if a.model != b.model then ["model changed"] else [])
    + (if a.system != b.system then ["system prompt changed"] else [])
    + (if a.tools != b.tools then ["tool definitions changed"] else [])
    + (if a.messages != b.messages then ["message payload changed"] else [])
  }

  function DetectBreak(config: Config, previous: Option<Tracked>, current: Tracked): Option<BreakEvent> {
    if previous.None? then None
    else
      var before := previous.value;
      var drop := Less(before.read, current.read);
      var elapsed := Less(current.observedAt, before.observedAt);
      var changed := ChangedParts(before.fingerprints, current.fingerprints);
      if before.version != current.version then
        Some(BreakEvent(false, VersionChanged(before.version, current.version), before.read, current.read, drop))
      else if drop < config.breakMinDrop then None
      else if changed != [] then Some(BreakEvent(false, PromptChanged(changed), before.read, current.read, drop))
      else if elapsed > AsSecs(config.promptTtl) then
        Some(BreakEvent(false, PossibleExpiry(elapsed), before.read, current.read, drop))
      else Some(BreakEvent(true, Unexplained, before.read, current.read, drop))
  }

  function Charge(stats: Stats, usage: Usage, hash: string, source: string): Stats {
    stats.(totalCreation := stats.totalCreation + usage.cacheCreationInputTokens,
           totalRead := stats.totalRead + usage.cacheReadInputTokens,
           lastCreation := Some(usage.cacheCreationInputTokens),
           lastRead := Some(usage.cacheReadInputTokens),
           lastRequestHash := Some(hash), lastSource := Some(source))
  }

  function CountBreak(stats: Stats, event: Option<BreakEvent>): Stats {
    if event.None? then stats
    else if event.value.unexpected then
      stats.(unexpectedBreaks := stats.unexpectedBreaks + 1, lastBreakReason := Some(event.value.reason))
    else stats.(expectedBreaks := stats.expectedBreaks + 1, lastBreakReason := Some(event.value.reason))
  }

  function Persisted(c: Cache): Cache {
    c.(files := c.files.(stats := Some(c.stats), state := if c.previous.Some? then c.previous else c.files.state))
  }

  function Open(files: Files, config: Config): Cache {
    Cache(config, if files.stats.Some? then files.stats.value else NO_STATS, files.state, files)
  }

  /** The entry is of this program's version and younger than the time to live. */
  predicate Live(entry: Entry, now: nat, ttl: nat) {
    entry.version == FINGERPRINT_VERSION && Less(now, entry.cachedAt) < AsSecs(ttl)
  }

  /** The entry a lookup would return. */
  function Fresh(c: Cache, hash: string, now: nat): Option<Entry> {
    if hash in c.files.entries && Live(c.files.entries[hash], now, c.config.completionTtl) then
      Some(c.files.entries[hash])
    else None
  }

  function LookedUp(c: Cache, request: Request, now: nat, later: nat): Cache {
    var h := request.hash;
    var keyed := c.stats.(lastCompletionKey := Some(h));
    match Fresh(c, h, now)
    case None =>
      Persisted(c.(stats := keyed.(misses := keyed.misses + 1),
                   files := c.files.(entries := c.files.entries - {h})))
    case Some(entry) =>
      Persisted(c.(stats := Charge(keyed.(hits := keyed.hits + 1), entry.response.usage, h, "completion-cache"),
                   previous := Some(FromUsage(request, entry.response.usage, later))))
  }

  function Recorded(c: Cache, request: Request, usage: Usage, response: Option<MessageResponse>,
                    now: nat, later: nat): Cache {
    var h := request.hash;
    var current := FromUsage(request, usage, now);
    var charged := Charge(c.stats.(tracked := c.stats.tracked + 1), usage, h, "api-response");
    var counted := CountBreak(charged, DetectBreak(c.config, c.previous, current));
    var d := c.(stats := counted, previous := Some(current));
    Persisted(match response
              case None => d
              case Some(r) =>
                d.(stats := counted.(writes := counted.writes + 1),
                   files := d.files.(entries := d.files.entries[h := Entry(later, FINGERPRINT_VERSION, r)])))
  }

  // --- The cache and its directory ---

  class Disk {
    var entries: map<string, Entry>
    var stats: Option<Stats>
    var state: Option<Tracked>

    constructor ()
      ensures View() == Files(map[], None, None)
    {
      entries, stats, state := map[], None, None;
    }

    function View(): Files
      reads this
    {
      Files(entries, stats, state)
    }
  }

  class PromptCache {
    const disk: Disk
    var config: Config
    var stats: Stats
    var previous: Option<Tracked>

    function View(): Cache
      reads this, disk
    {
      Cache(config, stats, previous, disk.View())
    }

    /** Opens the session directory: the totals and the last prompt are the ones on disk. */
    constructor WithConfig(disk: Disk, config: Config)
      ensures this.disk == disk && View() == Open(disk.View(), config)
    {
      this.disk, this.config := disk, config;
      stats := if disk.stats.Some? then disk.stats.value else NO_STATS;
      previous := disk.state;
    }

    method PersistState()
      modifies disk`stats, disk`state
      ensures View() == Persisted(old(View()))
    {
      disk.stats := Some(stats);
      if previous.Some? {
        disk.state := previous;
      }
    }

    method ApplyUsage(usage: Usage, hash: string, source: string)
      modifies this`stats
      ensures View() == old(View()).(stats := Charge(old(stats), usage, hash, source))
    {
      stats := stats.(totalCreation := stats.totalCreation + usage.cacheCreationInputTokens);
      stats := stats.(totalRead := stats.totalRead + usage.cacheReadInputTokens);
      stats := stats.(lastCreation := Some(usage.cacheCreationInputTokens));
      stats := stats.(lastRead := Some(usage.cacheReadInputTokens));
      stats := stats.(lastRequestHash := Some(hash));
      stats := stats.(lastSource := Some(source));
    }

    /** `now` is read when the entry's age is checked, `later` when the prompt state is made. */
    method LookupCompletion(request: Request, now: nat, later: nat) returns (found: Option<MessageResponse>)
      modifies this, disk
      ensures View() == LookedUp(old(View()), request, now, later)
      ensures found == ResponseOf(Fresh(old(View()), request.hash, now))
    {
      var h := request.hash;
      if h !in disk.entries {
        stats := stats.(misses := stats.misses + 1);
        stats := stats.(lastCompletionKey := Some(h));
        PersistState();
        assert old(disk.entries) - {h} == old(disk.entries);
        return None;
      }
      var entry := disk.entries[h];
      if entry.version != FINGERPRINT_VERSION {
        stats := stats.(misses := stats.misses + 1);
        stats := stats.(lastCompletionKey := Some(h));
        disk.entries := disk.entries - {h};
        PersistState();
        return None;
      }
      var expired := Less(now, entry.cachedAt) >= AsSecs(config.completionTtl);
      stats := stats.(lastCompletionKey := Some(h));
      if expired {
        stats := stats.(misses := stats.misses + 1);
        disk.entries := disk.entries - {h};
        PersistState();
        return None;
      }
      stats := stats.(hits := stats.hits + 1);
      ApplyUsage(entry.response.usage, h, "completion-cache");
      previous := Some(FromUsage(request, entry.response.usage, later));
      PersistState();
      return Some(entry.response);
    }

    /** `now` is read when the prompt state is made, `later` when the completion is written. */
    method RecordUsageInternal(request: Request, usage: Usage, response: Option<MessageResponse>, now: nat, later: nat)
      returns (event: Option<BreakEvent>, snapshot: Stats)
      modifies this, disk
      ensures View() == Recorded(old(View()), request, usage, response, now, later)
      ensures event == DetectBreak(old(config), old(previous), FromUsage(request, usage, now))
      ensures snapshot == stats
    {
      var h := request.hash;
      var current := FromUsage(request, usage, now);
      event := DetectBreak(config, previous, current);
      stats := stats.(tracked := stats.tracked + 1);
      ApplyUsage(usage, h, "api-response");
      if event.Some? {
        if event.value.unexpected {
          stats := stats.(unexpectedBreaks := stats.unexpectedBreaks + 1);
        } else {
          stats := stats.(expectedBreaks := stats.expectedBreaks + 1);
        }
        stats := stats.(lastBreakReason := Some(event.value.reason));
      }
      previous := Some(current);
      if response.Some? {
        disk.entries := disk.entries[h := Entry(later, FINGERPRINT_VERSION, response.value)];
        stats := stats.(writes := stats.writes + 1);
      }
      PersistState();
      snapshot := stats;
    }
  }

  function ResponseOf(entry: Option<Entry>): Option<MessageResponse> {
    if entry.Some? then Some(entry.value.response) else None
  }

  // --- What a report of a break says ---

  /** The parts named are exactly those that differ. */
  lemma PartsNamed(a: Fingerprints, b: Fingerprints)
    ensures var parts := ChangedParts(a, b);
            && ("model changed" in parts <==> a.model != b.model)
            && ("system prompt changed" in parts <==> a.system != b.system)
            && ("tool definitions changed" in parts <==> a.tools != b.tools)
            && ("message payload changed" in parts <==> a.messages != b.messages)
            && (forall part :: part in parts ==>
                  part in ["model changed", "system prompt changed", "tool definitions changed", "message payload changed"])
  {
    var p0, p1 := "model changed", "system prompt changed";
    var p2, p3 := "tool definitions changed", "message payload changed";
    assert |p0| == 13 && |p1| == 21 && |p2| == 24 && |p3| == 23;
  }

  /** The figures add up, and the reason is the first that holds: version, prompt, age, none. */
  lemma BreakSays(config: Config, previous: Option<Tracked>, current: Tracked)
    requires DetectBreak(config, previous, current).Some?
    ensures previous.Some?
    ensures var e, before := DetectBreak(config, previous, current).value, previous.value;
            && e.previousRead == before.read && e.currentRead == current.read
            && (if e.currentRead <= e.previousRead then e.currentRead + e.drop == e.previousRead else e.drop == 0)
            && match e.reason
               case VersionChanged(old_, now) => !e.unexpected && old_ == before.version && now == current.version && old_ != now
               case PromptChanged(parts) =>
                 && !e.unexpected && before.version == current.version
                 && before.fingerprints != current.fingerprints
                 && parts == ChangedParts(before.fingerprints, current.fingerprints)
               case PossibleExpiry(elapsed) =>
                 && !e.unexpected && before.version == current.version && before.fingerprints == current.fingerprints
                 && before.observedAt + elapsed == current.observedAt && 1000 * elapsed > config.promptTtl
               case Unexplained =>
                 && e.unexpected && before.version == current.version && before.fingerprints == current.fingerprints
                 && 1000 * (current.observedAt - before.observedAt) <= config.promptTtl
  {
    var before := previous.value;
    NothingChanged(before.fingerprints, current.fingerprints);
  }

  lemma NothingChanged(a: Fingerprints, b: Fingerprints)
    ensures ChangedParts(a, b) == [] <==> a == b
  {
  }

  /** A break is reported exactly after a change of version or a drop as large as configured. */
  lemma BreakReportedIff(config: Config, previous: Option<Tracked>, current: Tracked)
    ensures DetectBreak(config, previous, current).Some? <==>
              && previous.Some?
              && (previous.value.version != current.version
                  || current.read + config.breakMinDrop <= previous.value.read
                  || config.breakMinDrop == 0)
  {
  }

  /** An entry is alive for whole seconds, of which its age has to be fewer than its time to live holds. */
  lemma LiveIff(entry: Entry, now: nat, ttl: nat)
    ensures Live(entry, now, ttl) <==>
              entry.version == 1 && 1000 <= ttl && 1000 * (now - entry.cachedAt + 1) <= ttl
  {
  }
}
