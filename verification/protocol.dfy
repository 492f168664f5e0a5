/** The small protocol helpers of pipeline/modal_app.py: the model cascade of
    Stage A with its error classifiers and the server-suggested retry delay,
    the candidate directory names, and the server-sent-event frames of the
    streaming endpoint. The Gemini client is a parameter: for each model, the
    outcome of its `_call` once the retry decorator has given up or returned.
    `json.dumps` of an event's data is a parameter as well. */
module Protocol {
  import opened Common

  // ---------------------------------------------------------------------------
  // Error classifiers
  // ---------------------------------------------------------------------------

  /** An exception raised by the Gemini client: a `ClientError` with its
      status code (None when it has none), or any other exception; `text` is
      `str(exc)`. */
  datatype ApiError =
    | ClientError(statusCode: Option<int>, text: string)
    | OtherError(text: string)

  const DailyQuotaMarker: string := "GenerateRequestsPerDayPerProject"

  /** `_is_rate_limit` */
  predicate IsRateLimit(e: ApiError) {
    e.ClientError? && e.statusCode == Some(429)
  }

  /** `_is_not_found` */
  predicate IsNotFound(e: ApiError) {
    e.ClientError? && e.statusCode == Some(404)
  }

  /** `_is_daily_exhausted` */
  predicate IsDailyExhausted(e: ApiError) {
    IsRateLimit(e) && Contains(e.text, DailyQuotaMarker)
  }

  /** A daily-quota error is a rate limit, and neither is a missing model. */
  lemma ClassifiersAgree(e: ApiError)
    ensures IsDailyExhausted(e) ==> IsRateLimit(e)
    ensures IsRateLimit(e) ==> !IsNotFound(e)
    ensures !e.ClientError? ==> !IsRateLimit(e) && !IsNotFound(e) && !IsDailyExhausted(e)
  {
  }

  /** A 429 whose text names the daily quota is a daily exhaustion. */
  lemma DailyMarkerDecides(code: int, pre: string, post: string)
    ensures IsDailyExhausted(ClientError(Some(code), pre + DailyQuotaMarker + post)) <==> code == 429
  {
    var t := pre + DailyQuotaMarker + post;
    assert IsPrefix(DailyQuotaMarker, t[|pre|..]) by {
      assert t[|pre|..][..|DailyQuotaMarker|] == DailyQuotaMarker;
    }
  }

  // ---------------------------------------------------------------------------
  // The retry delay: re.search(r"'retryDelay':\s*'(\d+(?:\.\d+)?)s'", msg)
  // ---------------------------------------------------------------------------

  const RetryKey: string := "'retryDelay':"
  const DefaultDelay: real := 60.0
  const DelayBuffer: real := 2.0

  /** The first index at or after `i` whose character is not in the class:
      a greedy `\s*` or `\d*`. */
  function SkipSpaces(s: string, i: nat): (j: nat)
    requires i <= |s|
    ensures i <= j <= |s|
    ensures forall k :: i <= k < j ==> IsSpace(s[k])
    ensures j == |s| || !IsSpace(s[j])
    decreases |s| - i
  {
    if i < |s| && IsSpace(s[i]) then SkipSpaces(s, i + 1) else i
  }

  function SkipDigits(s: string, i: nat): (j: nat)
    requires i <= |s|
    ensures i <= j <= |s|
    ensures AllDigits(s[i..j])
    ensures j == |s| || !IsDigit(s[j])
    decreases |s| - i
  {
    if i < |s| && IsDigit(s[i]) then
      var j := SkipDigits(s, i + 1);
      assert s[i..j] == [s[i]] + s[i + 1..j];
      j
    else i
  }

  function Pow10(n: nat): nat
    ensures Pow10(n) >= 1
  {
    if n == 0 then 1 else 10 * Pow10(n - 1)
  }

  /** `float("ddd")` or `float("ddd.fff")`, exactly. */
  function DecimalReal(whole: string, frac: string): real
    requires AllDigits(whole) && AllDigits(frac)
  {
    DecimalValue(whole) as real + DecimalValue(frac) as real / Pow10(|frac|) as real
  }

  /** The value of the pattern when it matches at position `p`. Greedy `\s*`
      and `\d+` never have to give anything back here (the character after
      each run cannot continue the pattern), so the match at `p` is unique. */
  function MatchAt(s: string, p: nat): Option<real>
    requires p <= |s|
  {
    if !IsPrefix(RetryKey, s[p..]) then None
    else
      var q := SkipSpaces(s, p + |RetryKey|);
      if q == |s| || s[q] != '\'' then None
      else
        var d0 := q + 1;
        var d1 := SkipDigits(s, d0);
        if d1 == d0 then None
        else if d1 + 1 < |s| && s[d1] == '.' && IsDigit(s[d1 + 1]) then
          var f1 := SkipDigits(s, d1 + 1);
          if IsPrefix("s'", s[f1..]) then Some(DecimalReal(s[d0..d1], s[d1 + 1..f1])) else None
        else if IsPrefix("s'", s[d1..]) then Some(DecimalReal(s[d0..d1], ""))
        else None
  }

  /** `re.search`: the match starting leftmost at or after `p`. */
  function Search(s: string, p: nat): (r: Option<real>)
    requires p <= |s|
    ensures r.Some? ==> r.value >= 0.0
    decreases |s| - p
  {
    var m := MatchAt(s, p);
    if m.Some? then
      assert m.value >= 0.0 by {
        MatchAtNonNegative(s, p);
      }
      m
    else if p == |s| then None
    else Search(s, p + 1)
  }

  lemma MatchAtNonNegative(s: string, p: nat)
    requires p <= |s| && MatchAt(s, p).Some?
    ensures MatchAt(s, p).value >= 0.0
  {
  }

  /** `_extract_retry_delay`: the suggested delay plus a 2-second buffer, or
      60 seconds when the message carries none. */
  function ExtractRetryDelay(msg: string): (d: real)
    ensures d == DefaultDelay || d >= DelayBuffer
  {
    match Search(msg, 0)
    case Some(v) => v + DelayBuffer
    case None => DefaultDelay
  }

  /** A match needs the key, so a message without a quote character (the key
      starts with one) falls back to 60 seconds. */
  lemma {:induction false} NoQuoteNoMatch(s: string, p: nat)
    requires p <= |s| && forall k :: p <= k < |s| ==> s[k] != '\''
    ensures Search(s, p) == None
    decreases |s| - p
  {
    if p < |s| {
      assert s[p..][0] == s[p];
      NoQuoteNoMatch(s, p + 1);
    }
  }

  lemma DefaultWithoutKey(msg: string)
    requires forall k :: 0 <= k < |msg| ==> msg[k] != '\''
    ensures ExtractRetryDelay(msg) == DefaultDelay
  {
    NoQuoteNoMatch(msg, 0);
  }

  /** `'retryDelay': '<n>s'` after a quote-free prefix yields n + 2 seconds. */
  lemma WholeSecondsDelay(pre: string, spaces: string, n: nat, post: string)
    requires forall k :: 0 <= k < |pre| ==> pre[k] != '\''
    requires forall k :: 0 <= k < |spaces| ==> IsSpace(spaces[k])
    ensures ExtractRetryDelay(pre + RetryKey + spaces + "'" + NatToString(n) + "s'" + post) ==
      n as real + DelayBuffer
  {
    var digits := NatToString(n);
    var s1 := pre + RetryKey;
    var s2 := s1 + spaces;
    var s3 := s2 + "'";
    var s4 := s3 + digits;
    var s5 := s4 + "s'";
    var s := s5 + post;
    Extends(s5, post, s);
    Extends(s4, "s'", s5);
    Extends(s3, digits, s4);
    Extends(s2, "'", s3);
    Extends(s1, spaces, s2);
    Extends(pre, RetryKey, s1);
    var p := |pre|;
    var q := |s2|;
    var d1 := |s4|;
    assert s[..p] == pre;
    assert s[p..p + |RetryKey|] == RetryKey;
    assert s[q + 1..d1] == digits;
    assert s[q] == '\'' && s[d1] == 's' && s[d1 + 1] == '\'';
    forall k | p + |RetryKey| <= k < q
      ensures IsSpace(s[k])
    {
      assert s[k] == spaces[k - |s1|];
    }
    NoQuoteBefore(s, pre, p);
    MatchWhole(s, p, q, d1);
    SearchFrom(s, p);
  }

  /** `b` extends `a` by `t`: its prefix is `a` and the rest is `t`. */
  lemma Extends(a: string, t: string, b: string)
    requires b == a + t
    ensures |b| == |a| + |t| && b[..|a|] == a && b[|a|..] == t
    ensures forall i, j :: 0 <= i <= j <= |a| ==> b[i..j] == a[i..j]
    ensures forall k :: |a| <= k < |b| ==> b[k] == t[k - |a|]
  {
  }

  /** The pattern matches at `p` with a whole number of seconds. */
  lemma MatchWhole(s: string, p: nat, q: nat, d1: nat)
    requires p + |RetryKey| <= q < d1 && d1 + 1 < |s| && q + 1 < d1
    requires s[p..p + |RetryKey|] == RetryKey
    requires forall k :: p + |RetryKey| <= k < q ==> IsSpace(s[k])
    requires s[q] == '\'' && AllDigits(s[q + 1..d1]) && s[d1] == 's' && s[d1 + 1] == '\''
    ensures MatchAt(s, p) == Some(DecimalValue(s[q + 1..d1]) as real)
  {
    assert s[p..][..|RetryKey|] == s[p..p + |RetryKey|];
    SkipSpacesRun(s, p + |RetryKey|, q);
    SkipDigitsRun(s, q + 1, d1);
    assert s[d1..][..2] == [s[d1], s[d1 + 1]];
    assert DecimalReal(s[q + 1..d1], "") == DecimalValue(s[q + 1..d1]) as real;
  }

  lemma {:induction false} NoQuoteBefore(s: string, pre: string, p: nat)
    requires p == |pre| <= |s| && s[..p] == pre
    requires forall k :: 0 <= k < |pre| ==> pre[k] != '\''
    ensures forall k :: 0 <= k < p ==> MatchAt(s, k) == None
  {
    forall k | 0 <= k < p
      ensures MatchAt(s, k) == None
    {
      assert s[k] == pre[k];
      assert s[k..][0] == s[k];
    }
  }

  lemma {:induction false} SearchFrom(s: string, p: nat)
    requires p < |s| && MatchAt(s, p).Some?
    requires forall k :: 0 <= k < p ==> MatchAt(s, k) == None
    ensures Search(s, 0) == MatchAt(s, p)
  {
    SearchSkips(s, 0, p);
  }

  lemma {:induction false} SearchSkips(s: string, i: nat, p: nat)
    requires i <= p < |s| && MatchAt(s, p).Some?
    requires forall k :: i <= k < p ==> MatchAt(s, k) == None
    ensures Search(s, i) == MatchAt(s, p)
    decreases p - i
  {
    if i < p {
      SearchSkips(s, i + 1, p);
    }
  }

  lemma {:induction false} SkipSpacesRun(s: string, i: nat, j: nat)
    requires i <= j < |s|
    requires forall k :: i <= k < j ==> IsSpace(s[k])
    requires !IsSpace(s[j])
    ensures SkipSpaces(s, i) == j
    decreases j - i
  {
    if i < j {
      SkipSpacesRun(s, i + 1, j);
    }
  }

  lemma {:induction false} SkipDigitsRun(s: string, i: nat, j: nat)
    requires i <= j < |s|
    requires AllDigits(s[i..j])
    requires !IsDigit(s[j])
    ensures SkipDigits(s, i) == j
    decreases j - i
  {
    if i < j {
      assert s[i] == s[i..j][0];
      assert s[i + 1..j] == s[i..j][1..];
      SkipDigitsRun(s, i + 1, j);
    }
  }

  // ---------------------------------------------------------------------------
  // The model cascade of Stage A
  // ---------------------------------------------------------------------------

  const Models: seq<string> := ["gemini-2.5-flash"]

  /** What `_call()` for one model finally did. */
  datatype CallOutcome = Returned(text: string) | Failed(error: ApiError)

  /** How Stage A's model loop ends. */
  datatype StageAResult =
    | Generated(raw: string)                        // `raw` set, loop left with `break`
    | EmptyResponse(model: string)                  // RuntimeError "Empty Gemini response text ..."
    | Surfaced(error: ApiError)                     // re-raised out of the loop
    | AllExhausted(lastError: Option<ApiError>)     // RuntimeError "All Gemini models exhausted ..."

  /** The errors `_call` turns into `_DailyQuotaExhausted`: a 404 or the
      daily quota. They send the loop on to the next model. */
  predicate Cascades(e: ApiError) {
    e.ClientError? && (IsNotFound(e) || IsDailyExhausted(e))
  }

  /** The loop over `models` from the first one, with `last` the error kept
      from the models already skipped. */
  function CascadeFrom(models: seq<string>, call: string -> CallOutcome, last: Option<ApiError>): StageAResult {
    if models == [] then AllExhausted(last)
    else
      match call(models[0])
      case Returned(t) => if t == "" then EmptyResponse(models[0]) else Generated(t)
      case Failed(e) =>
        if Cascades(e) then CascadeFrom(models[1..], call, Some(e)) else Surfaced(e)
  }

  /** Lines 228-299 of `generate_asset_spec`. */
  method RunCascade(models: seq<string>, call: string -> CallOutcome) returns (r: StageAResult)
    ensures r == CascadeFrom(models, call, None)
  {
    var lastExc: Option<ApiError> := None;
    var i := 0;
    while i < |models|
      invariant 0 <= i <= |models|
      invariant CascadeFrom(models, call, None) == CascadeFrom(models[i..], call, lastExc)
    {
      assert models[i..][0] == models[i];
      assert models[i..][1..] == models[i + 1..];
      var outcome := call(models[i]);
      match outcome {
        case Returned(t) =>
          if t == "" {
            return EmptyResponse(models[i]);
          }
          return Generated(t);
        case Failed(e) =>
          if !Cascades(e) {
            return Surfaced(e);
          }
          lastExc := Some(e);
      }
      i := i + 1;
    }
    return AllExhausted(lastExc);
  }

  /** Text comes from the first model that did not cascade, and every model
      before it cascaded. */
  lemma {:induction false} CascadeGenerated(models: seq<string>, call: string -> CallOutcome, last: Option<ApiError>)
    requires CascadeFrom(models, call, last).Generated?
    ensures CascadeFrom(models, call, last).raw != ""
    ensures exists i :: (0 <= i < |models| && call(models[i]) == Returned(CascadeFrom(models, call, last).raw)
      && forall k :: 0 <= k < i ==> call(models[k]).Failed? && Cascades(call(models[k]).error))
  {
    match call(models[0])
    case Returned(t) =>
      assert call(models[0]) == Returned(CascadeFrom(models, call, last).raw);
    case Failed(e) =>
      CascadeGenerated(models[1..], call, Some(e));
      var i :| 0 <= i < |models[1..]| && call(models[1..][i]) == Returned(CascadeFrom(models, call, last).raw)
        && forall k :: 0 <= k < i ==> call(models[1..][k]).Failed? && Cascades(call(models[1..][k]).error);
      assert call(models[i + 1]) == Returned(CascadeFrom(models, call, last).raw);
      forall k | 0 <= k < i + 1
        ensures call(models[k]).Failed? && Cascades(call(models[k]).error)
      {
        if k > 0 {
          assert models[k] == models[1..][k - 1];
        }
      }
  }

  /** The loop runs out of models exactly when every model cascaded; the
      error reported is the last model's. */
  lemma {:induction false} CascadeExhausted(models: seq<string>, call: string -> CallOutcome, last: Option<ApiError>)
    ensures CascadeFrom(models, call, last).AllExhausted? <==>
      forall k :: 0 <= k < |models| ==> call(models[k]).Failed? && Cascades(call(models[k]).error)
    ensures CascadeFrom(models, call, last).AllExhausted? && models != [] ==>
      CascadeFrom(models, call, last).lastError == Some(call(models[|models| - 1]).error)
    ensures models == [] ==> CascadeFrom(models, call, last) == AllExhausted(last)
  {
    if models != [] {
      CascadeExhausted(models[1..], call, if call(models[0]).Failed? then Some(call(models[0]).error) else last);
      assert forall k :: 1 <= k < |models| ==> models[k] == models[1..][k - 1];
    }
  }

  /** The message of the `RuntimeError` Stage A raises itself; `str(None)`
      is "None" when no model has failed. */
  function FailureMessage(r: StageAResult): (m: Option<string>)
    ensures m.Some? <==> r.EmptyResponse? || r.AllExhausted?
    ensures r.EmptyResponse? ==> m.value == "Empty Gemini response text for model=" + r.model
    ensures r.AllExhausted? ==> IsPrefix("All Gemini models exhausted their quotas. Last error: ", m.value)
    ensures r.AllExhausted? ==>
      m.value == "All Gemini models exhausted their quotas. Last error: "
        + (if r.lastError.Some? then r.lastError.value.text else "None")
  {
    match r
    case EmptyResponse(model) => Some("Empty Gemini response text for model=" + model)
    case AllExhausted(last) =>
      var shown := if last.Some? then last.value.text else "None";
      var prefix := "All Gemini models exhausted their quotas. Last error: ";
      assert (prefix + shown)[..|prefix|] == prefix;
      Some(prefix + shown)
    case _ => None
  }

  /** With the one configured model, Stage A either has its text, or fails
      with that model's error. */
  lemma SingleModel(call: string -> CallOutcome)
    ensures var r := CascadeFrom(Models, call, None);
      r.AllExhausted? ==> r.lastError == Some(call("gemini-2.5-flash").error)
  {
    CascadeExhausted(Models, call, None);
  }

  // ---------------------------------------------------------------------------
  // Candidate directories and event frames
  // ---------------------------------------------------------------------------

  /** `f"{n:02d}"` for a non-negative n: at least two digits, zero-padded. */
  function ZeroPad2(n: nat): (s: string)
    ensures |s| >= 2 && AllDigits(s) && DecimalValue(s) == n
    ensures n < 10 ==> s == "0" + NatToString(n) && |s| == 2
    ensures n >= 10 ==> s == NatToString(n)
  {
    var d := NatToString(n);
    if n < 10 then
      assert d[0] == d[|d| - 1];
      DecimalPrefixZero(d);
      "0" + d
    else d
  }

  /** A leading zero does not change a decimal value. */
  lemma {:induction false} DecimalPrefixZero(d: string)
    requires AllDigits(d)
    ensures AllDigits("0" + d) && DecimalValue("0" + d) == DecimalValue(d)
    decreases |d|
  {
    if d != [] {
      var z := "0" + d;
      assert z[..|z| - 1] == "0" + d[..|d| - 1];
      DecimalPrefixZero(d[..|d| - 1]);
    } else {
      assert ("0" + d)[..0] == [];
    }
  }

  const CandidatePrefix: string := "candidate_"

  /** `f"candidate_{candidate_id:02d}"` */
  function CandidateDir(candidateId: nat): (s: string)
    ensures IsPrefix(CandidatePrefix, s) && |s| >= |CandidatePrefix| + 2
  {
    CandidatePrefix + ZeroPad2(candidateId)
  }

  /** The id can be read back from the directory name, so different
      candidates never share a directory. */
  lemma CandidateDirReadBack(candidateId: nat)
    ensures var s := CandidateDir(candidateId);
      AllDigits(s[|CandidatePrefix|..]) && DecimalValue(s[|CandidatePrefix|..]) == candidateId
  {
    assert CandidateDir(candidateId)[|CandidatePrefix|..] == ZeroPad2(candidateId);
  }

  lemma CandidateDirInjective(a: nat, b: nat)
    requires CandidateDir(a) == CandidateDir(b)
    ensures a == b
  {
    CandidateDirReadBack(a);
    CandidateDirReadBack(b);
  }

  /** `_sse(event, data)`; `dataJson` is `json.dumps(data)`. */
  function Sse(event: string, dataJson: string): (frame: string)
    ensures |frame| >= 16 && frame[..7] == "event: " && frame[|frame| - 2..] == "\n\n"
  {
    "event: " + event + "\ndata: " + dataJson + "\n\n"
  }

  /** The position of the first `c` in `s`, or `|s|`. */
  function IndexOf(s: string, c: char): (i: nat)
    ensures i <= |s| && (i < |s| ==> s[i] == c)
    ensures forall k :: 0 <= k < i ==> s[k] != c
  {
    if s == [] then 0 else if s[0] == c then 0 else 1 + IndexOf(s[1..], c)
  }

  /** How a client reads one frame: an `event:` line, a `data:` line and a
      blank line. */
  function ParseSse(frame: string): Option<(string, string)> {
    if !IsPrefix("event: ", frame) then None
    else
      var rest := frame[7..];
      var i := IndexOf(rest, '\n');
      if i == |rest| then None
      else
        var afterEvent := rest[i + 1..];
        if !IsPrefix("data: ", afterEvent) then None
        else
          var body := afterEvent[6..];
          var j := IndexOf(body, '\n');
          if body[j..] == "\n\n" then Some((rest[..i], body[..j])) else None
  }

  /** Every frame reads back as its event name and data, provided neither
      contains a line break (the event names are fixed words and
      `json.dumps` escapes line breaks). */
  lemma SseRoundTrip(event: string, dataJson: string)
    requires '\n' !in event && '\n' !in dataJson
    ensures ParseSse(Sse(event, dataJson)) == Some((event, dataJson))
  {
    var frame := Sse(event, dataJson);
    var body := dataJson + "\n\n";
    var afterEvent := "data: " + body;
    var rest := event + ("\n" + afterEvent);
    assert frame == "event: " + rest;
    Extends("event: ", rest, frame);
    Extends(event, "\n" + afterEvent, rest);
    IndexOfStops(event, "\n" + afterEvent, '\n');
    assert rest[|event| + 1..] == afterEvent;
    Extends("data: ", body, afterEvent);
    Extends(dataJson, "\n\n", body);
    IndexOfStops(dataJson, "\n\n", '\n');
  }

  lemma {:induction false} IndexOfStops(a: string, b: string, c: char)
    requires c !in a && b != [] && b[0] == c
    ensures IndexOf(a + b, c) == |a|
  {
    if a != [] {
      assert (a + b)[1..] == a[1..] + b;
      IndexOfStops(a[1..], b, c);
    }
  }
}
