/** The chat server action: a per-client sliding-window rate limiter over a module-level map,
    input validation that runs before it, the persona switch and the image-payload extraction.
    The generative backend, the request headers and the clock are inputs. */
module Chat {

  import opened Wrappers
  import opened Text
  import Seqs

  /** RATE_LIMIT_WINDOW, in milliseconds. */
  const Window: int := 60 * 1000
  /** MAX_REQUESTS per window. */
  const MaxRequests: nat := 5
  /** The longest accepted message, in characters. */
  const MaxMessageLength: nat := 1500

  /** `userRequests.filter(t => now - t < RATE_LIMIT_WINDOW)`: the timestamps still in the window. */
  function Prune(ts: seq<int>, now: int): (r: seq<int>)
    ensures |r| <= |ts|
    ensures forall i :: 0 <= i < |r| ==> now - r[i] < Window
  {
    Seqs.Filter(ts, t => now - t < Window)
  }

  /** Pruning keeps exactly the in-window timestamps, in their original order. */
  lemma PruneKeepsExactlyFresh(ts: seq<int>, now: int, t: int)
    ensures t in Prune(ts, now) <==> t in ts && now - t < Window
    ensures Seqs.IsSubsequence(Prune(ts, now), ts)
  {
    Seqs.FilterMembership(ts, t => now - t < Window, t);
    Seqs.FilterIsSubsequence(ts, t => now - t < Window);
  }

  /** Pruning at a later time, after pruning at an earlier one, is pruning at the later time. */
  lemma PruneTwice(ts: seq<int>, earlier: int, now: int)
    requires earlier <= now
    ensures Prune(Prune(ts, earlier), now) == Prune(ts, now)
  {
    Seqs.FilterOfFilter(ts, t => earlier - t < Window, t => now - t < Window);
  }

  /** A timestamp recorded at `now` is in the window at `now`. */
  lemma PruneAppendNow(ts: seq<int>, now: int)
    ensures Prune(ts + [now], now) == Prune(ts, now) + [now]
  {
    Seqs.FilterAppend(ts, [now], t => now - t < Window);
  }

  /** `Math.ceil((oldest + RATE_LIMIT_WINDOW - now) / 1000)`: whole seconds until `oldest` leaves the window. */
  function RetryAfter(oldest: int, now: int): (r: int)
    ensures (r - 1) * 1000 < oldest + Window - now <= r * 1000
  {
    -((now - oldest - Window) / 1000)
  }

  /** For a timestamp still in the window the advertised wait is between 1 and 60 seconds. */
  lemma RetryAfterBounds(oldest: int, now: int)
    requires now - oldest < Window
    ensures RetryAfter(oldest, now) >= 1
    ensures oldest <= now ==> RetryAfter(oldest, now) <= Window / 1000
  {
    var r := RetryAfter(oldest, now);
    if oldest <= now {
      assert (r - 1) * 1000 < Window;
    }
  }

  /** The limiter's verdict on one request. */
  datatype Decision =
    | Admitted(stored: seq<int>)   // the list written back under the key
    | Rejected(retryAfter: int)    // seconds to wait; nothing is written back

  /** The rate-limit block of `generateResponse` on the list stored for the caller. */
  function Admission(stored: seq<int>, now: int): (d: Decision)
    ensures d.Rejected? <==> |Prune(stored, now)| >= MaxRequests
    ensures d.Rejected? ==> d.retryAfter == RetryAfter(Prune(stored, now)[0], now) && d.retryAfter >= 1
    ensures d.Admitted? ==>
      && 0 < |d.stored| <= MaxRequests
      && d.stored == Prune(stored, now) + [now]
  {
    var valid := Prune(stored, now);
    if |valid| >= MaxRequests then
      RetryAfterBounds(valid[0], now);
      Rejected(RetryAfter(valid[0], now))
    else
      Admitted(valid + [now])
  }

  predicate Sorted(s: seq<int>) {
    forall i, j :: 0 <= i < j < |s| ==> s[i] <= s[j]
  }

  /** Every admission in `log` saw fewer than MAX_REQUESTS earlier admissions inside its window. */
  ghost predicate Spaced(log: seq<int>) {
    forall i :: 0 <= i < |log| ==> |Prune(log[..i], log[i])| < MaxRequests
  }

  /** The timestamps of `log` in the window that ends at `t`: `(t - W, t]`. */
  function InWindow(log: seq<int>, t: int): seq<int> {
    Seqs.Filter(log, x => t - Window < x <= t)
  }

  /** The sliding-window guarantee: a sorted admission log in which every admission saw fewer than
      MAX_REQUESTS in-window predecessors has at most MAX_REQUESTS entries in ANY window. */
  lemma {:induction false} SlidingWindowBound(log: seq<int>, t: int)
    requires Sorted(log) && Spaced(log)
    ensures |InWindow(log, t)| <= MaxRequests
  {
    if log != [] {
      var n := |log|;
      var init, x := log[..n - 1], log[n - 1];
      assert log == init + [x];
      Seqs.FilterAppend(init, [x], y => t - Window < y <= t);
      if x > t {
        assert Spaced(init) by {
          forall i | 0 <= i < |init| ensures |Prune(init[..i], init[i])| < MaxRequests {
            assert init[..i] == log[..i];
          }
        }
        SlidingWindowBound(init, t);
      } else if x <= t - Window {
        Seqs.FilterKeepsNone(log, y => t - Window < y <= t);
      } else {
        Seqs.FilterCountMonotone(init, y => t - Window < y <= t, y => x - y < Window);
        assert |Prune(log[..n - 1], log[n - 1])| < MaxRequests;
      }
    }
  }

  /** Waiting the advertised number of seconds is enough: the oldest entry has left the window, so
      the same stored list is admitted then. With a sorted list, one second less is not enough. */
  lemma RetryAfterIsExact(stored: seq<int>, now: int)
    requires |stored| <= MaxRequests
    requires Admission(stored, now).Rejected?
    ensures Admission(stored, now + 1000 * Admission(stored, now).retryAfter).Admitted?
    ensures Sorted(stored) ==> Admission(stored, now + 1000 * (Admission(stored, now).retryAfter - 1)).Rejected?
  {
    var p := t => now - t < Window;
    var valid := Prune(stored, now);
    var r := RetryAfter(valid[0], now);
    if exists k :: 0 <= k < |stored| && !p(stored[k]) {
      var k :| 0 <= k < |stored| && !p(stored[k]);
      Seqs.FilterDropsOne(stored, p, k);
      assert false;
    }
    Seqs.FilterKeepsAll(stored, p);
    assert valid == stored;
    var later := now + 1000 * r;
    Seqs.FilterDropsOne(stored, t => later - t < Window, 0);
    if Sorted(stored) {
      var earlier := now + 1000 * (r - 1);
      forall i | 0 <= i < |stored| ensures earlier - stored[i] < Window {
        assert stored[0] <= stored[i];
      }
      Seqs.FilterKeepsAll(stored, t => earlier - t < Window);
    }
  }

  /** The caller's input is checked before the limiter is consulted. */
  datatype ChatError =
    | EmptyMessage
    | MessageTooLong
    | TooManyRequests(seconds: int)
    | MissingApiKey
    | BackendFailed

  /** An integer in a template string: its decimal digits, after a minus sign when negative. */
  function IntText(n: int): (r: string)
    ensures r != []
    ensures n >= 0 ==> IsDigit(r[0])
    ensures n < 0 ==> r[0] == '-'
  {
    if n < 0 then "-" + NatToString(-n) else NatToString(n)
  }

  /** Different integers are written differently. */
  lemma IntTextIdentifies(a: int, b: int)
    ensures IntText(a) == IntText(b) ==> a == b
  {
    if IntText(a) == IntText(b) && a < 0 && b < 0 {
      assert IntText(a)[1..] == NatToString(-a);
      assert IntText(b)[1..] == NatToString(-b);
      DecimalIdentifies(-a, -b);
    } else if a >= 0 && b >= 0 {
      DecimalIdentifies(a, b);
    }
  }

  lemma DecimalIdentifies(a: nat, b: nat)
    ensures NatToString(a) == NatToString(b) ==> a == b
  {
    DecimalRoundTrip(a);
    DecimalRoundTrip(b);
  }

  const WaitPrefix: string := "Terlalu banyak permintaan. Mohon tunggu "
  const WaitSuffix: string := " detik lagi sebelum mengirim pesan baru."

  /** The user-facing text of each error; a rate-limit refusal carries the wait between its
      fixed words. */
  function ErrorText(e: ChatError): (r: string)
    ensures e.TooManyRequests? ==>
      && |r| == |WaitPrefix| + |IntText(e.seconds)| + |WaitSuffix|
      && r[..|WaitPrefix|] == WaitPrefix && r[|r| - |WaitSuffix|..] == WaitSuffix
      && r[|WaitPrefix|..|r| - |WaitSuffix|] == IntText(e.seconds)
  {
    match e
    case EmptyMessage => "Pesan tidak boleh kosong."
    case MessageTooLong => "Pesan terlalu panjang (maksimal 1.500 karakter). Mohon persingkat pertanyaan Anda."
    case TooManyRequests(s) => WaitPrefix + IntText(s) + WaitSuffix
    case MissingApiKey => "Server belum dikonfigurasi (Missing API Key)."
    case BackendFailed => "Gagal mendapatkan respon dari AI. Silakan coba lagi nanti."
  }

  /** The refusal text determines the wait: refusals with different waits read differently. */
  lemma WaitTextIdentifies(a: int, b: int)
    ensures ErrorText(TooManyRequests(a)) == ErrorText(TooManyRequests(b)) ==> a == b
  {
    IntTextIdentifies(a, b);
  }

  /** JavaScript truthiness of an optional string argument. */
  predicate Present(s: Option<string>) {
    s.Some? && s.value != []
  }

  /** Input validation: empty message without an image, then the length ceiling on the untrimmed message. */
  function Validate(message: string, image: Option<string>): (r: Option<ChatError>)
    ensures r == Some(EmptyMessage) <==> message == [] && !Present(image)
    ensures r == Some(MessageTooLong) <==> (message != [] || Present(image)) && |message| > MaxMessageLength
    ensures r.None? <==> (message != [] || Present(image)) && |message| <= MaxMessageLength
  {
    if message == [] && !Present(image) then Some(EmptyMessage)
    else if |message| > MaxMessageLength then Some(MessageTooLong)
    else None
  }

  /** The system-prompt templates; their wording is not reproduced, only which one is chosen. */
  datatype Persona = SolutionArchitect | WebArchitect | Productivity | GeneralAssistant

  /** The persona `switch`: three known ids, everything else falls back to the general assistant. */
  function PersonaFor(mode: string): (p: Persona)
    ensures p == SolutionArchitect <==> mode == "solution-architect"
    ensures p == WebArchitect <==> mode == "web-architect"
    ensures p == Productivity <==> mode == "productivity"
    ensures p == GeneralAssistant <==> mode !in {"solution-architect", "web-architect", "productivity"}
  {
    if mode == "solution-architect" then SolutionArchitect
    else if mode == "web-architect" then WebArchitect
    else if mode == "productivity" then Productivity
    else GeneralAssistant
  }

  /** `imageBase64.split(',')[1] || imageBase64`: never empty for a non-empty image. */
  function ImagePayload(image: string): (r: string)
    ensures r == [] <==> image == []
  {
    match Piece(image, ',', 1)
    case Some(p) => if p != [] then p else image
    case None => image
  }

  /** A data URL `header,data` yields exactly its data; a string without a comma is sent whole. */
  lemma ImagePayloadStripsHeader(header: string, data: string)
    requires ',' !in header && ',' !in data
    ensures data != [] ==> ImagePayload(header + "," + data) == data
    ensures ImagePayload(header) == header
  {
    SplitJoin([header, data], ',');
    assert Join([header, data], [',']) == header + "," + data;
    SplitJoin([header], ',');
  }

  /** What is forwarded to the generative backend after the persona preamble. */
  datatype Request = Request(persona: Persona, message: string, image: Option<string>)

  function BuildRequest(message: string, mode: string, image: Option<string>): (r: Request)
    ensures r.persona == PersonaFor(mode) && r.message == message
    ensures r.image.Some? <==> Present(image)
    ensures r.image.Some? ==> r.image.value != []
  {
    Request(PersonaFor(mode), message, if Present(image) then Some(ImagePayload(image.value)) else None)
  }

  /** The backend's answer, an input of the model: a reply text, or a thrown error. */
  datatype BackendReply = Replied(text: string) | Threw

  datatype Quota = Quota(count: nat, limit: nat)

  datatype ChatResult = Reply(text: string, usage: Quota) | Failure(error: ChatError)

  /** The module-level state of the chat action: `rateLimitMap`, plus ghost bookkeeping that
      records every admission so that the window guarantee can be stated. */
  class ChatServer {
    var rateLimitMap: map<string, seq<int>>
    ghost var log: map<string, seq<int>>
    ghost var lastWrite: map<string, int>
    ghost var clock: int

    /** No key ever holds more than MAX_REQUESTS timestamps. */
    ghost predicate Valid()
      reads this
    {
      forall k :: k in rateLimitMap ==> |rateLimitMap[k]| <= MaxRequests
    }

    /** The stored lists are the admission logs pruned at their last write, and every log is
        sorted and spaced; this holds as long as the clock never goes backwards. */
    ghost predicate Tracked()
      reads this
    {
      TrackedState(rateLimitMap, log, lastWrite, clock)
    }

    constructor ()
      ensures Valid() && Tracked()
      ensures rateLimitMap == map[] && log == map[] && lastWrite == map[] && clock == 0
    {
      rateLimitMap, log, lastWrite, clock := map[], map[], map[], 0;
    }

    /** `rateLimitMap.get(ip) || []` */
    function Lookup(key: string): seq<int>
      reads this
    {
      if key in rateLimitMap then rateLimitMap[key] else []
    }

    /** For every key and every window, at most MAX_REQUESTS requests were admitted in it. */
    lemma WindowGuarantee(key: string, t: int)
      requires Tracked() && key in log
      ensures |InWindow(log[key], t)| <= MaxRequests
    {
      assert KeyTracked(rateLimitMap[key], log[key], lastWrite[key], clock);
      SlidingWindowBound(log[key], t);
    }

    /** `getRemainingQuota`: prunes the caller's list, stores it back and reports its length. */
    method GetRemainingQuota(key: string, now: int) returns (q: Quota)
      requires Valid()
      modifies this
      ensures Valid()
      ensures q == Quota(|Prune(old(Lookup(key)), now)|, MaxRequests)
      ensures rateLimitMap == old(rateLimitMap)[key := Prune(old(Lookup(key)), now)]
      ensures clock == now && log == old(log)[key := if key in old(log) then old(log)[key] else []]
      ensures lastWrite == old(lastWrite)[key := now]
      ensures old(Tracked()) && now >= old(clock) ==> Tracked()
    {
      ghost var tracked := Tracked() && now >= clock;
      var valid := Prune(Lookup(key), now);
      ghost var prev: seq<int> := if key in log then log[key] else [];
      if tracked {
        if key in rateLimitMap {
          assert KeyTracked(rateLimitMap[key], log[key], lastWrite[key], clock);
          PruneTwice(prev, lastWrite[key], now);
        }
        KeyTrackedAt(valid, prev, now, now);
        TrackedUpdate(rateLimitMap, log, lastWrite, clock, now, key, valid, prev);
      }
      rateLimitMap, log, lastWrite, clock := rateLimitMap[key := valid], log[key := prev], lastWrite[key := now], now;
      q := Quota(|valid|, MaxRequests);
    }

    /** The rate-limit block of `generateResponse`: prune, then reject without writing back,
        or store the pruned list followed by `now`. */
    method CheckRateLimit(key: string, now: int) returns (d: Decision)
      requires Valid()
      modifies this
      ensures Valid()
      ensures d == Admission(old(Lookup(key)), now)
      ensures d.Rejected? ==> rateLimitMap == old(rateLimitMap)
      ensures d.Admitted? ==> rateLimitMap == old(rateLimitMap)[key := d.stored]
      ensures clock == now
      ensures d.Rejected? ==> log == old(log) && lastWrite == old(lastWrite)
      ensures d.Admitted? ==>
        && log == old(log)[key := (if key in old(log) then old(log)[key] else []) + [now]]
        && lastWrite == old(lastWrite)[key := now]
      ensures old(Tracked()) && now >= old(clock) ==> Tracked()
    {
      ghost var tracked := Tracked() && now >= clock;
      d := Admission(Lookup(key), now);
      if d.Rejected? {
        if tracked {
          TrackedLaterClock(rateLimitMap, log, lastWrite, clock, now);
        }
        clock := now;
      } else {
        var m := rateLimitMap[key := d.stored];
        ghost var prev: seq<int> := if key in log then log[key] else [];
        ghost var l, w := log[key := prev + [now]], lastWrite[key := now];
        if tracked {
          AdmitTracked(rateLimitMap, log, lastWrite, clock, now, key, d.stored);
        }
        rateLimitMap, log, lastWrite, clock := m, l, w, now;
      }
    }

    /** `generateResponse`: validation, then the limiter, then the API-key check, then the backend.
        `sent` is what reaches the backend; `later` is the clock reading used for `usage`. */
    method GenerateResponse(message: string, mode: string, image: Option<string>, key: string,
                            now: int, apiKeyConfigured: bool, backend: BackendReply, later: int)
      returns (r: ChatResult, sent: Option<Request>)
      requires Valid()
      modifies this
      ensures Valid()
      ensures old(Tracked()) && now >= old(clock) ==> Tracked()
      ensures Validate(message, image).Some? ==>
        && r == Failure(Validate(message, image).value) && sent == None && rateLimitMap == old(rateLimitMap)
        && clock == old(clock) && log == old(log) && lastWrite == old(lastWrite)
      ensures Validate(message, image).None? ==>
        var d := Admission(old(Lookup(key)), now);
        && clock == now
        && (d.Rejected? ==> log == old(log) && lastWrite == old(lastWrite))
        && (d.Admitted? ==>
              && log == old(log)[key := (if key in old(log) then old(log)[key] else []) + [now]]
              && lastWrite == old(lastWrite)[key := now])
      ensures Validate(message, image).None? ==>
        var d := Admission(old(Lookup(key)), now);
        && (d.Rejected? ==>
              r == Failure(TooManyRequests(d.retryAfter)) && sent == None && rateLimitMap == old(rateLimitMap))
        && (d.Admitted? ==> rateLimitMap == old(rateLimitMap)[key := d.stored])
        && (d.Admitted? && !apiKeyConfigured ==> r == Failure(MissingApiKey) && sent == None)
        && (d.Admitted? && apiKeyConfigured ==>
              && sent == Some(BuildRequest(message, mode, image))
              && r == match backend
                      case Replied(text) => Reply(text, Quota(|Prune(d.stored, later)|, MaxRequests))
                      case Threw => Failure(BackendFailed))
    {
      var invalid := Validate(message, image);
      if invalid.Some? {
        return Failure(invalid.value), None;
      }
      var d := CheckRateLimit(key, now);
      if d.Rejected? {
        return Failure(TooManyRequests(d.retryAfter)), None;
      }
      if !apiKeyConfigured {
        return Failure(MissingApiKey), None;
      }
      sent := Some(BuildRequest(message, mode, image));
      match backend
      case Replied(text) =>
        r := Reply(text, Quota(|Prune(Lookup(key), later)|, MaxRequests));
      case Threw =>
        r := Failure(BackendFailed);
    }
  }

  /** The bookkeeping of one key: the stored list is the log pruned at its last write. */
  ghost predicate KeyTracked(stored: seq<int>, log: seq<int>, lastWrite: int, clock: int) {
    && lastWrite <= clock
    && stored == Prune(log, lastWrite)
    && Sorted(log) && Spaced(log)
    && (forall i :: 0 <= i < |log| ==> log[i] <= clock)
  }

  ghost predicate TrackedState(m: map<string, seq<int>>, log: map<string, seq<int>>,
                               lastWrite: map<string, int>, clock: int) {
    && m.Keys == log.Keys == lastWrite.Keys
    && forall k {:trigger KeyTracked(m[k], log[k], lastWrite[k], clock)} :: k in m ==> KeyTracked(m[k], log[k], lastWrite[k], clock)
  }

  lemma KeyTrackedAt(stored: seq<int>, log: seq<int>, now: int, clock: int)
    requires now <= clock && stored == Prune(log, now) && Sorted(log) && Spaced(log)
    requires forall i :: 0 <= i < |log| ==> log[i] <= clock
    ensures KeyTracked(stored, log, now, clock)
  {
  }

  /** A later clock reading keeps every key's bookkeeping valid. */
  lemma TrackedLaterClock(m: map<string, seq<int>>, log: map<string, seq<int>>,
                          lastWrite: map<string, int>, clock: int, now: int)
    requires TrackedState(m, log, lastWrite, clock) && clock <= now
    ensures TrackedState(m, log, lastWrite, now)
  {
    forall k | k in m ensures KeyTracked(m[k], log[k], lastWrite[k], now) {
      assert KeyTracked(m[k], log[k], lastWrite[k], clock);
    }
  }

  /** Rewriting one key at the current clock keeps the whole map tracked. */
  lemma TrackedUpdate(m: map<string, seq<int>>, log: map<string, seq<int>>,
                      lastWrite: map<string, int>, clock: int, now: int,
                      key: string, stored: seq<int>, keyLog: seq<int>)
    requires TrackedState(m, log, lastWrite, clock) && clock <= now
    requires KeyTracked(stored, keyLog, now, now)
    ensures TrackedState(m[key := stored], log[key := keyLog], lastWrite[key := now], now)
  {
    TrackedLaterClock(m, log, lastWrite, clock, now);
  }

  /** An admission at `now` keeps the whole map tracked. */
  lemma AdmitTracked(m: map<string, seq<int>>, log: map<string, seq<int>>,
                     lastWrite: map<string, int>, clock: int, now: int, key: string, entry: seq<int>)
    requires TrackedState(m, log, lastWrite, clock) && clock <= now
    requires |Prune(if key in m then m[key] else [], now)| < MaxRequests
    requires entry == Prune(if key in m then m[key] else [], now) + [now]
    ensures var prev := if key in m && key in log then log[key] else [];
      TrackedState(m[key := entry], log[key := prev + [now]], lastWrite[key := now], now)
  {
    var stored := if key in m then m[key] else [];
    var prev := if key in m && key in log then log[key] else [];
    if key in m {
      assert KeyTracked(m[key], log[key], lastWrite[key], clock);
      PruneTwice(prev, lastWrite[key], now);
    }
    assert Prune(stored, now) == Prune(prev, now);
    LogAppend(prev, now, clock);
    PruneAppendNow(prev, now);
    KeyTrackedAt(Prune(stored, now) + [now], prev + [now], now, now);
    TrackedUpdate(m, log, lastWrite, clock, now, key, Prune(stored, now) + [now], prev + [now]);
  }

  /** Appending an admission at a time no earlier than any logged one, when fewer than
      MAX_REQUESTS logged admissions are in its window, keeps the log sorted and spaced. */
  lemma LogAppend(log: seq<int>, now: int, clock: int)
    requires Sorted(log) && Spaced(log)
    requires forall i :: 0 <= i < |log| ==> log[i] <= clock
    requires clock <= now && |Prune(log, now)| < MaxRequests
    ensures Sorted(log + [now]) && Spaced(log + [now])
  {
    var l := log + [now];
    forall i | 0 <= i < |l| ensures |Prune(l[..i], l[i])| < MaxRequests {
      if i < |log| {
        assert l[..i] == log[..i];
      } else {
        assert l[..i] == log;
      }
    }
  }
}
