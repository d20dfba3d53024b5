/**
 * The auto-reply path of the bot (app.py `send_auto_reply_together`,
 * `generate_together_response`, `generate_fallback_response`): the daily throttle, the
 * reply delay, the fallback templates, the retry policy against the text-generation
 * service and the clean-up of its answer.
 *
 * The service is an oracle: the k-th request of one generation gets `oracle(k)`. Sleeps are
 * recorded in a trace instead of taken; random choices are parameters (`pick`).
 */
module Reply {
  import opened Wrappers
  import opened Text
  import opened Clock
  import opened Scoring

  // ------------------------------------------------------------------
  // Daily throttle
  // ------------------------------------------------------------------

  /** `MAX_REPLIES_PER_DAY` when the configuration does not set it. */
  const DefaultMaxRepliesPerDay: int := 30
  const WorkdayFirstHour: int := 9
  const WorkdayLastHour: int := 21

  /** The throttle's globals: replies sent today and the day the count belongs to. */
  datatype Throttle = Throttle(count: nat, lastResetDate: int)

  /** Why a reply request was let through or turned away, in the order the checks run. */
  datatype Decision = Allow | DenyLimit | DenyHours | DenyScore

  /**
   * The checks at the head of `send_auto_reply_together`: a new day resets the count
   * (whatever is decided next), then the daily limit, the working hours 9..21 and a
   * non-negative score are required, in that order.
   */
  function Admission(t: Throttle, maxPerDay: int, now: int, score: int): (r: (Throttle, Decision))
    ensures r.0.lastResetDate == DayOf(now)
    ensures r.0.count == if DayOf(now) != t.lastResetDate then 0 else t.count
    ensures r.1 == DenyLimit <==> r.0.count >= maxPerDay
    ensures r.1 == DenyHours <==> r.0.count < maxPerDay && !(WorkdayFirstHour <= HourOf(now) <= WorkdayLastHour)
    ensures r.1 == DenyScore <==> r.0.count < maxPerDay && WorkdayFirstHour <= HourOf(now) <= WorkdayLastHour && score < 0
    ensures r.1 == Allow <==> r.0.count < maxPerDay && WorkdayFirstHour <= HourOf(now) <= WorkdayLastHour && score >= 0
  {
    var today := DayOf(now);
    var t1 := if today != t.lastResetDate then Throttle(0, today) else t;
    if t1.count >= maxPerDay then (t1, DenyLimit)
    else if !(WorkdayFirstHour <= HourOf(now) <= WorkdayLastHour) then (t1, DenyHours)
    else if score < 0 then (t1, DenyScore)
    else (t1, Allow)
  }

  /** One reply request: when it arrives, the lead's score, and whether the send succeeds. */
  datatype Request = Request(now: int, score: int, sendOk: bool)

  /** The throttle after one request: admitted and sent requests add exactly one. */
  function AfterRequest(t: Throttle, maxPerDay: int, q: Request): Throttle {
    var (t1, d) := Admission(t, maxPerDay, q.now, q.score);
    if d == Allow && q.sendOk then Throttle(t1.count + 1, t1.lastResetDate) else t1
  }

  /** Requests served one after another (the sequential reading; see the README). */
  function Replay(t: Throttle, maxPerDay: int, qs: seq<Request>): Throttle
    decreases |qs|
  {
    if qs == [] then t else Replay(AfterRequest(t, maxPerDay, qs[0]), maxPerDay, qs[1..])
  }

  /** How many of the requests end in a sent reply. */
  function Sends(t: Throttle, maxPerDay: int, qs: seq<Request>): nat
    decreases |qs|
  {
    if qs == [] then 0
    else
      var (t1, d) := Admission(t, maxPerDay, qs[0].now, qs[0].score);
      (if d == Allow && qs[0].sendOk then 1 else 0) + Sends(AfterRequest(t, maxPerDay, qs[0]), maxPerDay, qs[1..])
  }

  /**
   * Within the day the throttle already belongs to, the counter grows by the number of sent
   * replies, and never past the limit: at most `maxPerDay - count` replies go out.
   */
  lemma {:induction false} SendsWithinDay(t: Throttle, maxPerDay: int, qs: seq<Request>)
    requires t.count <= maxPerDay
    requires forall i :: 0 <= i < |qs| ==> DayOf(qs[i].now) == t.lastResetDate
    ensures Replay(t, maxPerDay, qs).count == t.count + Sends(t, maxPerDay, qs)
    ensures Replay(t, maxPerDay, qs).count <= maxPerDay
    decreases |qs|
  {
    if qs != [] {
      var t1 := AfterRequest(t, maxPerDay, qs[0]);
      assert t1.lastResetDate == t.lastResetDate;
      forall i | 0 <= i < |qs[1..]| ensures DayOf(qs[1..][i].now) == t1.lastResetDate {
        assert qs[1..][i] == qs[i + 1];
      }
      SendsWithinDay(t1, maxPerDay, qs[1..]);
    }
  }

  /**
   * On one day, during working hours, with non-negative scores and successful sends, the
   * first `maxPerDay - count` requests are answered and the rest are turned away.
   */
  lemma {:induction false} EligibleFillQuota(t: Throttle, maxPerDay: int, qs: seq<Request>)
    requires t.count <= maxPerDay
    requires forall i :: 0 <= i < |qs| ==> DayOf(qs[i].now) == t.lastResetDate
    requires forall i :: 0 <= i < |qs| ==> WorkdayFirstHour <= HourOf(qs[i].now) <= WorkdayLastHour
    requires forall i :: 0 <= i < |qs| ==> qs[i].score >= 0 && qs[i].sendOk
    ensures Sends(t, maxPerDay, qs) == if |qs| <= maxPerDay - t.count then |qs| else maxPerDay - t.count
    decreases |qs|
  {
    if qs != [] {
      var t1 := AfterRequest(t, maxPerDay, qs[0]);
      forall i | 0 <= i < |qs[1..]|
        ensures DayOf(qs[1..][i].now) == t1.lastResetDate
        ensures WorkdayFirstHour <= HourOf(qs[1..][i].now) <= WorkdayLastHour
        ensures qs[1..][i].score >= 0 && qs[1..][i].sendOk
      {
        assert qs[1..][i] == qs[i + 1];
      }
      EligibleFillQuota(t1, maxPerDay, qs[1..]);
    }
  }

  // ------------------------------------------------------------------
  // Delay before replying
  // ------------------------------------------------------------------

  /** The range the reply delay is drawn from, in seconds: the sooner, the hotter the lead. */
  function DelayBounds(score: int): (r: (int, int))
    ensures TierOf(score) == Hot ==> r == (300, 900)
    ensures TierOf(score) == Good ==> r == (900, 1800)
    ensures TierOf(score) in {Normal, LowQuality} ==> r == (1800, 3600)
  {
    if score >= 5 then (300, 900)
    else if score >= 2 then (900, 1800)
    else (1800, 3600)
  }

  /** `random.randint(lo, hi)`, with the random draw given as `pick`. */
  function ReplyDelay(score: int, pick: nat): (d: int)
    ensures DelayBounds(score).0 <= d <= DelayBounds(score).1
  {
    var (lo, hi) := DelayBounds(score);
    lo + pick % (hi - lo + 1)
  }

  /** Every second of the range can be drawn. */
  lemma ReplyDelayCovers(score: int, d: int)
    requires DelayBounds(score).0 <= d <= DelayBounds(score).1
    ensures ReplyDelay(score, (d - DelayBounds(score).0) as nat) == d
  {
  }

  // ------------------------------------------------------------------
  // Fallback replies
  // ------------------------------------------------------------------

  const HotTemplates: seq<string> := [
    "Привет! Вижу вам нужен видеопродюсер 🎬 У меня большой опыт в этой сфере. Напишите мне в личные сообщения - обсудим ваш проект детально!",
    "Здравствуйте! Отлично, что ищете профессионала для видео 🎥 Готов помочь с вашим проектом. Пишите в ЛС - обговорим все детали!"
  ]

  const GoodTemplates: seq<string> := [
    "Привет! Могу помочь с видеопродакшеном 🎬 Есть портфолио и опыт. Напишите в личку - обсудим ваши задачи!",
    "Здравствуйте! Вижу нужен видеопродюсер 🎥 С удовольствием помогу. Пишите в ЛС!"
  ]

  const DefaultTemplates: seq<string> := [
    "Привет! Помогу с видеопроизводством 🎬 Напишите в личные сообщения для обсуждения деталей.",
    "Здравствуйте! Готов помочь с вашим видеопроектом 🎥 Пишите в ЛС!"
  ]

  /** The template list chosen by the quality label: "ГОРЯЧИЙ" first, then "ХОРОШИЙ". */
  function TemplatesFor(quality: string): (ts: seq<string>)
    ensures ts != []
  {
    if Contains(quality, "ГОРЯЧИЙ") then HotTemplates
    else if Contains(quality, "ХОРОШИЙ") then GoodTemplates
    else DefaultTemplates
  }

  /** `random.choice(options)`, with the random draw given as `pick`. */
  function FallbackResponse(quality: string, pick: nat): (r: string)
    ensures r in TemplatesFor(quality)
  {
    var options := TemplatesFor(quality);
    options[pick % |options|]
  }

  /** Each tier's own label selects that tier's templates. */
  lemma HotLabelTemplates()
    ensures TemplatesFor(TierLabel(Hot)) == HotTemplates
  {
    HotLabelIsHot();
  }

  lemma GoodLabelTemplates()
    ensures TemplatesFor(TierLabel(Good)) == GoodTemplates
  {
    GoodLabelNotHot();
    GoodLabelIsGood();
  }

  lemma OtherLabelTemplates(t: Tier)
    requires t == Normal || t == LowQuality
    ensures TemplatesFor(TierLabel(t)) == DefaultTemplates
  {
    OtherLabelPlain(t);
  }

  lemma HotLabelIsHot()
    ensures Contains(TierLabel(Hot), "ГОРЯЧИЙ")
  {
    LabelHasWord(TierLabel(Hot), "ГОРЯЧИЙ");
  }

  lemma GoodLabelNotHot()
    ensures !Contains(TierLabel(Good), "ГОРЯЧИЙ")
  {
    LabelLacksWord(TierLabel(Good), "ГОРЯЧИЙ", 'Г');
  }

  lemma GoodLabelIsGood()
    ensures Contains(TierLabel(Good), "ХОРОШИЙ")
  {
    LabelHasWord(TierLabel(Good), "ХОРОШИЙ");
  }

  lemma OtherLabelPlain(t: Tier)
    requires t == Normal || t == LowQuality
    ensures !Contains(TierLabel(t), "ГОРЯЧИЙ") && !Contains(TierLabel(t), "ХОРОШИЙ")
  {
    var lab := TierLabel(t);
    assert 'Г' !in lab && 'Х' !in lab;
    LabelLacksBoth(lab);
  }

  lemma LabelLacksBoth(lab: string)
    requires 'Г' !in lab && 'Х' !in lab
    ensures !Contains(lab, "ГОРЯЧИЙ") && !Contains(lab, "ХОРОШИЙ")
  {
    LabelLacksWord(lab, "ГОРЯЧИЙ", 'Г');
    LabelLacksWord(lab, "ХОРОШИЙ", 'Х');
  }

  /** A label holds its seven-letter word after the emoji and the space. */
  lemma LabelHasWord(lab: string, word: string)
    requires |lab| >= 9 && |word| == 7 && lab[2..9] == word
    ensures Contains(lab, word)
  {
    ContainsAt(lab, word, 2);
  }

  lemma LabelLacksWord(lab: string, word: string, c: char)
    requires c in word && c !in lab
    ensures !Contains(lab, word)
  {
    NotContainsByChar(lab, word, c);
  }

  /** Every template is a real message: longer than ten characters. */
  lemma FallbackLong(quality: string, pick: nat)
    ensures |FallbackResponse(quality, pick)| > 10
  {
    var options := TemplatesFor(quality);
    assert forall i :: 0 <= i < |options| ==> |options[i]| > 10;
  }

  // ------------------------------------------------------------------
  // Clean-up of a generated answer
  // ------------------------------------------------------------------

  /**
   * `re.sub(r'<think>.*?</think>', '', s, flags=re.DOTALL)`: from left to right, each
   * `<think>` with a later `</think>` is removed up to the nearest such closing tag. The
   * text in front of a removed block is not searched again.
   */
  function RemoveThink(s: string): (r: string)
    ensures |r| <= |s|
    ensures !Contains(s, "<think>") ==> r == s
    decreases |s|
  {
    FindContains(s, "<think>");
    match Find(s, "<think>")
    case None => s
    case Some(i) =>
      var after := s[i + 7..];
      match Find(after, "</think>")
      case None => s
      case Some(j) => s[..i] + RemoveThink(after[j + 8..])
  }

  /**
   * A leading think block is removed with the tags around it, and what follows is cleaned the
   * same way: the non-greedy `<think>.*?</think>` pattern ends at the first closing tag.
   */
  lemma RemoveThinkBlock(a: string, b: string, c: string)
    requires !Contains(a, "<think>") && !Contains(b, "</think>")
    ensures RemoveThink(a + "<think>" + b + "</think>" + c) == a + RemoveThink(c)
  {
    var s := a + "<think>" + b + "</think>" + c;
    assert "<think>"[1..] == "think>";
    assert "</think>"[1..] == "/think>";
    assert s == a + "<think>" + (b + "</think>" + c);
    FindAfterPrefix(a, "<think>", b + "</think>" + c);
    var after := s[|a| + 7..];
    assert after == b + "</think>" + c;
    FindAfterPrefix(b, "</think>", c);
    assert after[|b| + 8..] == c;
    assert s[..|a|] == a;
  }

  predicate IsNewline(c: char) {
    c == '\n'
  }

  /** Whitespace only as single ' ' characters. */
  predicate SpacesCollapsed(s: string) {
    && (forall i :: 0 <= i < |s| && IsSpace(s[i]) ==> s[i] == ' ')
    && (forall i, j :: 0 <= i < |s| && 0 <= j < |s| && j == i + 1 && IsSpace(s[i]) ==> !IsSpace(s[j]))
  }

  /** Collapsed whitespace and none at either end. */
  predicate SingleSpaced(s: string) {
    SpacesCollapsed(s) && (s == [] || (!IsSpace(s[0]) && !IsSpace(s[|s| - 1])))
  }

  /** The clean-up of a 200 answer: think blocks, runs of newlines, runs of whitespace, "Ответ:". */
  function CleanResponse(aiText: string): string {
    var noThink := RemoveThink(Strip(aiText));
    var oneLine := Strip(CollapseRuns(noThink, IsNewline));
    var spaced := Strip(CollapseRuns(oneLine, IsSpace));
    AfterMarker(spaced, "Ответ:")
  }

  lemma CollapsedSlice(s: string, a: nat, b: nat)
    requires SpacesCollapsed(s) && a <= b <= |s|
    ensures SpacesCollapsed(s[a..b])
  {
    var t := s[a..b];
    forall i | 0 <= i < |t| ensures t[i] == s[a + i] {
    }
  }

  /** Stripping a collapsed text leaves it single-spaced, and it still occurs in the original. */
  lemma StripCollapsed(s: string)
    requires SpacesCollapsed(s)
    ensures SingleSpaced(Strip(s))
    ensures Contains(s, Strip(s))
  {
    var t := Strip(s);
    var lead := |s| - |LStrip(s)|;
    assert lead + |t| <= |s| && t == s[lead..lead + |t|] && (t == [] || (!IsSpace(t[0]) && !IsSpace(t[|t| - 1]))) by {
      StripIsSlice(s);
    }
    SliceSingleSpaced(s, t, lead);
  }

  /** A collapsed text's slice without whitespace at its ends is single-spaced and occurs in it. */
  lemma SliceSingleSpaced(s: string, t: string, lead: nat)
    requires SpacesCollapsed(s) && lead + |t| <= |s| && t == s[lead..lead + |t|]
    requires t == [] || (!IsSpace(t[0]) && !IsSpace(t[|t| - 1]))
    ensures SingleSpaced(t) && Contains(s, t)
  {
    CollapsedSlice(s, lead, lead + |t|);
    assert OccursAt(s, t, lead);
    ContainsAt(s, t, lead);
  }

  /** A text that lacks `marker` has no part that holds it. */
  lemma NoMarkerInside(s: string, part: string, marker: string)
    requires !Contains(s, marker) && Contains(s, part)
    ensures !Contains(part, marker)
  {
    if Contains(part, marker) {
      ContainsTransitive(s, part, marker);
      assert false;
    }
  }

  lemma CollapseSpaces(s: string)
    ensures SpacesCollapsed(CollapseRuns(s, IsSpace))
  {
  }

  /** What follows the last `marker` of a single-spaced text, stripped, is single-spaced and marker-free. */
  lemma AfterMarkerNormal(spaced: string, marker: string)
    requires marker != [] && SingleSpaced(spaced)
    ensures SingleSpaced(Strip(SplitLast(spaced, marker)))
    ensures !Contains(Strip(SplitLast(spaced, marker)), marker)
  {
    var last := SplitLast(spaced, marker);
    assert SpacesCollapsed(last) by {
      CollapsedSlice(spaced, |spaced| - |last|, |spaced|);
      assert spaced[|spaced| - |last|..|spaced|] == last;
    }
    StripCollapsed(last);
    NoMarkerInside(last, Strip(last), marker);
  }

  /**
   * A cleaned answer is single-spaced (whitespace only as lone ' ', none at the ends) and
   * no "Ответ:" marker is left in it.
   */
  lemma CleanResponseNormal(aiText: string)
    ensures SingleSpaced(CleanResponse(aiText))
    ensures !Contains(CleanResponse(aiText), "Ответ:")
  {
    var oneLine := Strip(CollapseRuns(RemoveThink(Strip(aiText)), IsNewline));
    CleanTailNormal(oneLine);
  }

  /** The steps of the clean-up after the newline runs: whatever the text, the result is normal. */
  lemma CleanTailNormal(oneLine: string)
    ensures var r := AfterMarker(Strip(CollapseRuns(oneLine, IsSpace)), "Ответ:");
      SingleSpaced(r) && !Contains(r, "Ответ:")
  {
    var collapsed := CollapseRuns(oneLine, IsSpace);
    CollapseSpaces(oneLine);
    StripCollapsed(collapsed);
    AfterMarkerClean(Strip(collapsed), "Ответ:");
  }

  /** The last step of the clean-up: what follows the last `marker`, if there is one. */
  function AfterMarker(spaced: string, marker: string): string
    requires marker != []
  {
    if Contains(spaced, marker) then Strip(SplitLast(spaced, marker)) else spaced
  }

  lemma AfterMarkerClean(spaced: string, marker: string)
    requires marker != [] && SingleSpaced(spaced)
    ensures SingleSpaced(AfterMarker(spaced, marker)) && !Contains(AfterMarker(spaced, marker), marker)
  {
    if Contains(spaced, marker) {
      AfterMarkerNormal(spaced, marker);
    }
  }

  // ------------------------------------------------------------------
  // Retry policy against the text-generation service
  // ------------------------------------------------------------------

  /** The service's models, tried in order. */
  const TogetherModels: seq<string> := ["deepseek-ai/DeepSeek-R1-Distill-Llama-70B-free"]

  /** What one request to the service gave: an HTTP status with the answer text, a timeout, another exception. */
  datatype Outcome = Status(code: int, content: string) | Timeout | Failure

  /** The trace of one generation: requests made and seconds slept. */
  datatype Event = Call(model: string, attempt: nat) | Sleep(seconds: nat)

  /** A usable generated text, or "use a fallback template". */
  datatype Reply = Generated(text: string) | Fallback

  /** What the retry loop does after one request. */
  datatype Step = Finish(reply: Reply) | Retry(wait: nat) | NextModel

  /** The branches of the retry loop for the outcome of attempt `attempt` (1..3). */
  function Classify(o: Outcome, attempt: nat): Step {
    match o
    case Status(code, content) =>
      if code == 200 then
        var aiText := Strip(content);
        if |aiText| > 10 then
          var clean := CleanResponse(aiText);
          if |Strip(clean)| > 10 then Finish(Generated(clean)) else Finish(Fallback)
        else NextModel
      else if code == 429 then Retry(attempt * 15)
      else if code == 401 then Finish(Fallback)
      else if code == 404 then NextModel
      else if attempt < 3 then Retry(10)
      else NextModel
    case Timeout => if attempt < 3 then Retry(5) else NextModel
    case Failure => if attempt < 3 then Retry(5) else NextModel
  }

  /**
   * The waits of the retry policy: a 429 waits `attempt * 15` seconds, any other retry waits
   * 10 seconds after a status and 5 after an exception, and those happen only before the
   * third attempt. A 404, or a 200 with too short a content, moves to the next model.
   */
  lemma RetryWaits(o: Outcome, attempt: nat)
    requires 1 <= attempt <= 3
    ensures Classify(o, attempt).Retry? ==>
      || (o.Status? && o.code == 429 && Classify(o, attempt).wait == attempt * 15)
      || (attempt < 3 && Classify(o, attempt).wait == (if o.Status? then 10 else 5))
    ensures o.Status? && o.code == 404 ==> Classify(o, attempt) == NextModel
    ensures o.Status? && o.code == 200 && |Strip(o.content)| <= 10 ==> Classify(o, attempt) == NextModel
    ensures attempt == 3 && !(o.Status? && o.code in {200, 401, 429}) ==> Classify(o, attempt) == NextModel
  {
  }

  datatype Run = Run(trace: seq<Event>, reply: Reply)

  /**
   * The rest of a generation from model `mi` (0-based), attempt `attempt` (4 once the
   * model's three attempts are used up), where `k` requests have been made so far.
   */
  function RunFrom(models: seq<string>, oracle: nat -> Outcome, mi: nat, attempt: nat, k: nat): Run
    requires mi <= |models| && 1 <= attempt <= 4
    decreases |models| - mi, 4 - attempt
  {
    if mi == |models| then Run([], Fallback)
    else if attempt == 4 then
      var rest := RunFrom(models, oracle, mi + 1, 1, k);
      Run((if mi + 1 < |models| then [Sleep(5)] else []) + rest.trace, rest.reply)
    else
      var call := Call(models[mi], attempt);
      match Classify(oracle(k), attempt)
      case Finish(reply) => Run([call], reply)
      case Retry(w) =>
        var rest := RunFrom(models, oracle, mi, attempt + 1, k + 1);
        Run([call, Sleep(w)] + rest.trace, rest.reply)
      case NextModel =>
        var rest := RunFrom(models, oracle, mi, 4, k + 1);
        Run([call] + rest.trace, rest.reply)
  }

  /** A whole generation. */
  function Retries(models: seq<string>, oracle: nat -> Outcome): Run {
    RunFrom(models, oracle, 0, 1, 0)
  }

  /** The text handed back to the caller. */
  function ReplyText(reply: Reply, quality: string, pick: nat): string {
    match reply
    case Generated(text) => text
    case Fallback => FallbackResponse(quality, pick)
  }

  /** The run from attempt `attempt` of model `mi`, unfolded once by the outcome of that request. */
  lemma RunFromCall(models: seq<string>, oracle: nat -> Outcome, mi: nat, attempt: nat, k: nat)
    requires mi < |models| && 1 <= attempt <= 3
    ensures var here := RunFrom(models, oracle, mi, attempt, k);
      match Classify(oracle(k), attempt)
      case Finish(reply) => here == Run([Call(models[mi], attempt)], reply)
      case Retry(w) =>
        var rest := RunFrom(models, oracle, mi, attempt + 1, k + 1);
        here.trace == [Call(models[mi], attempt), Sleep(w)] + rest.trace && here.reply == rest.reply
      case NextModel =>
        var rest := RunFrom(models, oracle, mi, 4, k + 1);
        here.trace == [Call(models[mi], attempt)] + rest.trace && here.reply == rest.reply
  {
  }

  /**
   * The attempts at one model (the inner loop). `finished` holds the reply when the loop
   * returned; otherwise the model is done with and `k2` requests have been made.
   */
  method TryModel(models: seq<string>, oracle: nat -> Outcome, mi: nat, k: nat)
    returns (finished: Option<Reply>, events: seq<Event>, k2: nat)
    requires mi < |models|
    ensures finished.Some? ==> RunFrom(models, oracle, mi, 1, k) == Run(events, finished.value)
    ensures finished.None? ==>
      && RunFrom(models, oracle, mi, 1, k).trace == events + RunFrom(models, oracle, mi, 4, k2).trace
      && RunFrom(models, oracle, mi, 1, k).reply == RunFrom(models, oracle, mi, 4, k2).reply
  {
    events, k2 := [], k;
    var attempt := 1;
    while attempt <= 3
      invariant 1 <= attempt <= 4
      invariant RunFrom(models, oracle, mi, 1, k).trace == events + RunFrom(models, oracle, mi, attempt, k2).trace
      invariant RunFrom(models, oracle, mi, 1, k).reply == RunFrom(models, oracle, mi, attempt, k2).reply
      decreases 4 - attempt
    {
      RunFromCall(models, oracle, mi, attempt, k2);
      var step := Classify(oracle(k2), attempt);
      var call := Call(models[mi], attempt);
      match step {
        case Finish(reply) =>
          assert events + [call] == events + RunFrom(models, oracle, mi, attempt, k2).trace;
          return Some(reply), events + [call], k2 + 1;
        case Retry(w) =>
          assert events + ([call, Sleep(w)] + RunFrom(models, oracle, mi, attempt + 1, k2 + 1).trace)
              == (events + [call, Sleep(w)]) + RunFrom(models, oracle, mi, attempt + 1, k2 + 1).trace;
          events := events + [call, Sleep(w)];
          k2 := k2 + 1;
          attempt := attempt + 1;
        case NextModel =>
          assert events + ([call] + RunFrom(models, oracle, mi, 4, k2 + 1).trace)
              == (events + [call]) + RunFrom(models, oracle, mi, 4, k2 + 1).trace;
          events := events + [call];
          k2 := k2 + 1;
          break;
      }
    }
    return None, events, k2;
  }

  /** Leaving model `mi` after its attempts: the pause, if another model follows, then that model. */
  lemma NextModelRun(models: seq<string>, oracle: nat -> Outcome, mi: nat, k: nat, before: seq<Event>, events: seq<Event>)
    requires mi < |models|
    ensures var pause: seq<Event> := if mi + 1 < |models| then [Sleep(5)] else [];
      && before + (events + RunFrom(models, oracle, mi, 4, k).trace)
         == (before + events + pause) + RunFrom(models, oracle, mi + 1, 1, k).trace
      && RunFrom(models, oracle, mi, 4, k).reply == RunFrom(models, oracle, mi + 1, 1, k).reply
  {
    var pause: seq<Event> := if mi + 1 < |models| then [Sleep(5)] else [];
    var rest := RunFrom(models, oracle, mi + 1, 1, k);
    assert RunFrom(models, oracle, mi, 4, k) == Run(pause + rest.trace, rest.reply);
  }

  /**
   * `generate_together_response`: None without an API key; otherwise up to three attempts
   * per model, a 5-second pause between models, then the fallback. The trace records every
   * request and every sleep.
   */
  method GenerateTogetherResponse(apiKey: string, models: seq<string>, quality: string,
                                  oracle: nat -> Outcome, pick: nat)
    returns (r: Option<string>, trace: seq<Event>)
    ensures apiKey == "" ==> r == None && trace == []
    ensures apiKey != "" ==> r == Some(ReplyText(Retries(models, oracle).reply, quality, pick))
    ensures apiKey != "" ==> trace == Retries(models, oracle).trace
  {
    if apiKey == "" {
      return None, [];
    }
    ghost var whole := Retries(models, oracle);
    trace := [];
    var k := 0;
    var mi := 0;
    while mi < |models|
      invariant mi <= |models|
      invariant whole.trace == trace + RunFrom(models, oracle, mi, 1, k).trace
      invariant whole.reply == RunFrom(models, oracle, mi, 1, k).reply
      decreases |models| - mi
    {
      var finished, events, k2 := TryModel(models, oracle, mi, k);
      if finished.Some? {
        return Some(ReplyText(finished.value, quality, pick)), trace + events;
      }
      var pause: seq<Event> := if mi + 1 < |models| then [Sleep(5)] else [];
      NextModelRun(models, oracle, mi, k2, trace, events);
      trace := trace + events + pause;
      k := k2;
      mi := mi + 1;
    }
    assert trace + [] == trace;
    return Some(ReplyText(Fallback, quality, pick)), trace;
  }

  // ------------------------------------------------------------------
  // Laws of the retry policy
  // ------------------------------------------------------------------

  /** How many requests of the trace went to model `m`. */
  function CallsTo(trace: seq<Event>, m: string): nat
    decreases |trace|
  {
    if trace == [] then 0
    else (if trace[0].Call? && trace[0].model == m then 1 else 0) + CallsTo(trace[1..], m)
  }

  lemma {:induction false} CallsToAppend(a: seq<Event>, b: seq<Event>, m: string)
    ensures CallsTo(a + b, m) == CallsTo(a, m) + CallsTo(b, m)
    decreases |a|
  {
    if a == [] {
      assert a + b == b;
    } else {
      assert (a + b)[0] == a[0];
      assert (a + b)[1..] == a[1..] + b;
      CallsToAppend(a[1..], b, m);
    }
  }

  /** The number of models named `m` from index `from` on. */
  function Occurrences(models: seq<string>, from: nat, m: string): nat
    requires from <= |models|
    decreases |models| - from
  {
    if from == |models| then 0 else (if models[from] == m then 1 else 0) + Occurrences(models, from + 1, m)
  }

  /** From model `mi`, attempt `attempt` on: the remaining attempts of `mi` and three per later model. */
  lemma {:induction false} CallsFrom(models: seq<string>, oracle: nat -> Outcome, mi: nat, attempt: nat, k: nat, m: string)
    requires mi <= |models| && 1 <= attempt <= 4
    ensures CallsTo(RunFrom(models, oracle, mi, attempt, k).trace, m)
         <= (if mi < |models| && models[mi] == m then 4 - attempt else 0)
          + (if mi < |models| then 3 * Occurrences(models, mi + 1, m) else 0)
    decreases |models| - mi, 4 - attempt, 1
  {
    if mi == |models| {
    } else if attempt == 4 {
      CallsAfterModel(models, oracle, mi, k, m);
    } else {
      CallsFromAttempt(models, oracle, mi, attempt, k, m);
    }
  }

  /** Past the last attempt of model `mi`, only the later models are asked. */
  lemma {:induction false} CallsAfterModel(models: seq<string>, oracle: nat -> Outcome, mi: nat, k: nat, m: string)
    requires mi < |models|
    ensures CallsTo(RunFrom(models, oracle, mi, 4, k).trace, m) <= 3 * Occurrences(models, mi + 1, m)
    decreases |models| - mi, 0, 0
  {
    var rest := RunFrom(models, oracle, mi + 1, 1, k);
    var pause: seq<Event> := if mi + 1 < |models| then [Sleep(5)] else [];
    assert RunFrom(models, oracle, mi, 4, k).trace == pause + rest.trace;
    CallsFrom(models, oracle, mi + 1, 1, k, m);
    CallsToAppend(pause, rest.trace, m);
    if mi + 1 < |models| {
      assert CallsTo(pause, m) == 0 by { assert pause[1..] == []; }
    }
  }

  /** An attempt of model `mi` is one request, followed by the rest of the run. */
  lemma {:induction false} CallsFromAttempt(models: seq<string>, oracle: nat -> Outcome, mi: nat, attempt: nat, k: nat, m: string)
    requires mi < |models| && 1 <= attempt < 4
    ensures CallsTo(RunFrom(models, oracle, mi, attempt, k).trace, m)
         <= (if models[mi] == m then 4 - attempt else 0) + 3 * Occurrences(models, mi + 1, m)
    decreases |models| - mi, 4 - attempt, 0
  {
    var call := Call(models[mi], attempt);
    assert CallsTo([call], m) == (if models[mi] == m then 1 else 0) by { assert [call][1..] == []; }
    match Classify(oracle(k), attempt)
    case Finish(reply) =>
    case Retry(w) =>
      var rest := RunFrom(models, oracle, mi, attempt + 1, k + 1);
      CallsFrom(models, oracle, mi, attempt + 1, k + 1, m);
      CallsToAppend([call, Sleep(w)], rest.trace, m);
      assert [call, Sleep(w)][1..] == [Sleep(w)] && [Sleep(w)][1..] == [];
    case NextModel =>
      var rest := RunFrom(models, oracle, mi, 4, k + 1);
      CallsFrom(models, oracle, mi, 4, k + 1, m);
      CallsToAppend([call], rest.trace, m);
  }

  /** With distinct model names, no model is asked more than three times. */
  lemma AtMostThreeAttempts(models: seq<string>, oracle: nat -> Outcome, m: string)
    requires forall i, j :: 0 <= i < j < |models| ==> models[i] != models[j]
    ensures CallsTo(Retries(models, oracle).trace, m) <= 3
  {
    CallsFrom(models, oracle, 0, 1, 0, m);
    if |models| > 0 {
      if models[0] == m {
        NoLaterOccurrence(models, 1, m);
      } else {
        AtMostOneOccurrence(models, 1, m);
      }
    }
  }

  lemma {:induction false} NoLaterOccurrence(models: seq<string>, from: nat, m: string)
    requires 1 <= from <= |models| && models[0] == m
    requires forall i, j :: 0 <= i < j < |models| ==> models[i] != models[j]
    ensures Occurrences(models, from, m) == 0
    decreases |models| - from
  {
    if from < |models| {
      NoLaterOccurrence(models, from + 1, m);
    }
  }

  lemma {:induction false} AtMostOneOccurrence(models: seq<string>, from: nat, m: string)
    requires from <= |models|
    requires forall i, j :: 0 <= i < j < |models| ==> models[i] != models[j]
    ensures Occurrences(models, from, m) <= 1
    decreases |models| - from
  {
    if from < |models| {
      if models[from] == m {
        if from + 1 < |models| {
          forall i | from + 1 <= i < |models| ensures models[i] != m {
            assert models[from] != models[i];
          }
          NoneFrom(models, from + 1, m);
        }
      } else {
        AtMostOneOccurrence(models, from + 1, m);
      }
    }
  }

  lemma {:induction false} NoneFrom(models: seq<string>, from: nat, m: string)
    requires from <= |models|
    requires forall i :: from <= i < |models| ==> models[i] != m
    ensures Occurrences(models, from, m) == 0
    decreases |models| - from
  {
    if from < |models| {
      NoneFrom(models, from + 1, m);
    }
  }

  /** The only generated text the loop accepts is a cleaned one longer than ten characters. */
  lemma ClassifyGenerated(o: Outcome, attempt: nat)
    requires Classify(o, attempt).Finish? && Classify(o, attempt).reply.Generated?
    ensures var text := Classify(o, attempt).reply.text;
      |text| > 10 && SingleSpaced(text) && !Contains(text, "Ответ:")
  {
    assert o.Status? && o.code == 200;
    var aiText := Strip(o.content);
    var clean := CleanResponse(aiText);
    assert Classify(o, attempt) == Finish(Generated(clean));
    CleanResponseNormal(aiText);
    StripNoEdgeSpace(clean);
  }

  /** A generated reply is always longer than ten characters and cleaned. */
  lemma {:induction false} GeneratedIsClean(models: seq<string>, oracle: nat -> Outcome, mi: nat, attempt: nat, k: nat)
    requires mi <= |models| && 1 <= attempt <= 4
    ensures var reply := RunFrom(models, oracle, mi, attempt, k).reply;
      reply.Generated? ==> |reply.text| > 10 && SingleSpaced(reply.text) && !Contains(reply.text, "Ответ:")
    decreases |models| - mi, 4 - attempt
  {
    if mi == |models| {
    } else if attempt == 4 {
      GeneratedIsClean(models, oracle, mi + 1, 1, k);
    } else {
      match Classify(oracle(k), attempt)
      case Finish(reply) =>
        if reply.Generated? {
          ClassifyGenerated(oracle(k), attempt);
        }
      case Retry(w) => GeneratedIsClean(models, oracle, mi, attempt + 1, k + 1);
      case NextModel => GeneratedIsClean(models, oracle, mi, 4, k + 1);
    }
  }

  /** With an API key the caller always gets a text worth sending: more than ten characters. */
  lemma ReplyAlwaysUsable(models: seq<string>, oracle: nat -> Outcome, quality: string, pick: nat)
    ensures |ReplyText(Retries(models, oracle).reply, quality, pick)| > 10
  {
    GeneratedIsClean(models, oracle, 0, 1, 0);
    FallbackLong(quality, pick);
  }

  /** Three rate-limit answers in a row: waits of 15, 30 and 45 seconds, then the fallback. */
  lemma RateLimitedThrice(oracle: nat -> Outcome)
    requires forall k :: oracle(k).Status? && oracle(k).code == 429
    ensures Retries(TogetherModels, oracle) == Run([
      Call(TogetherModels[0], 1), Sleep(15),
      Call(TogetherModels[0], 2), Sleep(30),
      Call(TogetherModels[0], 3), Sleep(45)], Fallback)
  {
    var m := TogetherModels;
    assert oracle(0).code == 429 && oracle(1).code == 429 && oracle(2).code == 429;
    assert RunFrom(m, oracle, 1, 1, 3) == Run([], Fallback);
    assert RunFrom(m, oracle, 0, 4, 3) == Run([], Fallback);
  }

  /** A rejected API key (401) ends the generation at once with the fallback. */
  lemma UnauthorizedFallsBack(models: seq<string>, oracle: nat -> Outcome)
    requires models != [] && oracle(0).Status? && oracle(0).code == 401
    ensures Retries(models, oracle) == Run([Call(models[0], 1)], Fallback)
  {
  }

  // ------------------------------------------------------------------
  // The whole auto-reply
  // ------------------------------------------------------------------

  /** How one call of `send_auto_reply_together` ended. */
  datatype AutoReply =
    | Skipped(decision: Decision)
    | NoResponse
    | Sent(text: string, delay: int)
    | SendFailed(text: string, delay: int)

  /** The throttle's globals, updated in place by each auto-reply. */
  class ReplyThrottle {
    var count: nat
    var lastResetDate: int
    const maxPerDay: int

    /** The globals at start-up: nothing sent, counting for the current day. */
    constructor (maxPerDay: int, now: int)
      ensures count == 0 && lastResetDate == DayOf(now) && this.maxPerDay == maxPerDay
    {
      count := 0;
      lastResetDate := DayOf(now);
      this.maxPerDay := maxPerDay;
    }

    function State(): Throttle
      reads this
    {
      Throttle(count, lastResetDate)
    }

    /** The reset and the three checks. */
    method Admit(now: int, score: int) returns (d: Decision)
      modifies this
      ensures (State(), d) == Admission(old(State()), maxPerDay, now, score)
    {
      var today := DayOf(now);
      if today != lastResetDate {
        count := 0;
        lastResetDate := today;
      }
      if count >= maxPerDay {
        return DenyLimit;
      }
      var hour := HourOf(now);
      if !(WorkdayFirstHour <= hour <= WorkdayLastHour) {
        return DenyHours;
      }
      if score < 0 {
        return DenyScore;
      }
      return Allow;
    }

    /**
     * `send_auto_reply_together`: admission, generation, a delay by tier, the send. Only a
     * successful send adds one to the count. `oracle` answers the service requests,
     * `replyPick` and `delayPick` stand for the random draws, `sendOk` for the send's success.
     */
    method SendAutoReply(now: int, analysis: Analysis, apiKey: string, models: seq<string>,
                         oracle: nat -> Outcome, replyPick: nat, delayPick: nat, sendOk: bool)
      returns (r: AutoReply)
      modifies this
      ensures var (t1, d) := Admission(old(State()), maxPerDay, now, analysis.score);
        && lastResetDate == t1.lastResetDate
        && (d != Allow ==> r == Skipped(d) && count == t1.count)
        && (d == Allow && apiKey == "" ==> r == NoResponse && count == t1.count)
        && (d == Allow && apiKey != "" ==>
              var text := ReplyText(Retries(models, oracle).reply, analysis.quality, replyPick);
              var delay := ReplyDelay(analysis.score, delayPick);
              if sendOk then r == Sent(text, delay) && count == t1.count + 1
              else r == SendFailed(text, delay) && count == t1.count)
    {
      var d := Admit(now, analysis.score);
      if d != Allow {
        return Skipped(d);
      }
      var aiResponse, _ := GenerateTogetherResponse(apiKey, models, analysis.quality, oracle, replyPick);
      ReplyAlwaysUsable(models, oracle, analysis.quality, replyPick);
      if aiResponse.None? || aiResponse.value == "" {
        return NoResponse;
      }
      var text := aiResponse.value;
      var delay := ReplyDelay(analysis.score, delayPick);
      if sendOk {
        count := count + 1;
        r := Sent(text, delay);
      } else {
        r := SendFailed(text, delay);
      }
    }
  }
}
