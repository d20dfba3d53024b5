/**
 * The bot's shared lead store (shared_db.py `SharedDatabase`) over in-memory tables. Each
 * SQL statement becomes a transition of the `Db` value; the class `SharedDatabase` holds the
 * tables as fields and its methods perform those transitions. Every method takes the clock
 * reading `now` (seconds) instead of `datetime.now()` / `CURRENT_TIMESTAMP`.
 */
module LeadStore {
  import opened Wrappers
  import opened Text
  import opened Clock
  import opened Sorting
  import opened Json
  import opened Scoring

  // ------------------------------------------------------------------
  // Rows
  // ------------------------------------------------------------------

  /** A row of `leads`; `qualityReasons` is the stored JSON text. */
  datatype Lead = Lead(id: nat, chatSource: string, chatTitle: string, senderId: int,
                       senderName: string, messageText: string, qualityScore: int,
                       qualityLabel: string, qualityReasons: string, timestamp: int,
                       responded: bool, responseText: Option<string>,
                       responseTimestamp: Option<int>, responseType: Option<string>)

  /** A row of `keywords`, keyed by its phrase. */
  datatype KeywordRow = KeywordRow(active: bool, hitsCount: nat, createdAt: int, lastHitAt: Option<int>)

  /** A row of `chat_sources`, keyed by its `chat_id`. */
  datatype ChatSourceRow = ChatSourceRow(chatName: string, chatType: Option<string>, active: bool,
                                         leadsCount: nat, lastLeadTime: Option<int>,
                                         lastScanTime: Option<int>, createdAt: int)

  /** A row of `daily_stats`, keyed by its day. */
  datatype DayStats = DayStats(totalLeads: nat, hotLeads: nat, goodLeads: nat, normalLeads: nat,
                               lowQualityLeads: nat, responsesSent: nat, aiResponses: nat,
                               manualResponses: nat, createdAt: int)

  /** A row of `pending_responses`. */
  datatype PendingResponse = PendingResponse(id: nat, leadId: int, aiResponse: string,
                                             editedResponse: Option<string>, status: string,
                                             createdAt: int, processedAt: Option<int>)

  /** A row of `system_settings`, keyed by its key. */
  datatype Setting = Setting(value: string, valueType: string, updatedAt: int)

  /** All tables, with the next `AUTOINCREMENT` ids of `leads` and `pending_responses`. */
  datatype Db = Db(leads: seq<Lead>, nextLeadId: nat, keywords: map<string, KeywordRow>,
                   chatSources: map<string, ChatSourceRow>, dailyStats: map<int, DayStats>,
                   pending: seq<PendingResponse>, nextPendingId: nat,
                   settings: map<string, Setting>)

  const EmptyDb: Db := Db([], 1, map[], map[], map[], [], 1, map[])

  /** Today's bucket counts add up to today's total. */
  predicate Balanced(d: DayStats) {
    d.hotLeads + d.goodLeads + d.normalLeads + d.lowQualityLeads == d.totalLeads
  }

  /**
   * What every reachable store satisfies: lead ids increase in insertion order and stay
   * below the next id, pending ids stay below theirs, and every day's buckets add up.
   */
  ghost predicate ValidDb(db: Db) {
    && (forall i, j :: 0 <= i < j < |db.leads| ==> db.leads[i].id < db.leads[j].id)
    && 0 < db.nextLeadId && 0 < db.nextPendingId
    && (forall i :: 0 <= i < |db.leads| ==> 0 < db.leads[i].id < db.nextLeadId)
    && (forall i :: 0 <= i < |db.pending| ==> 0 < db.pending[i].id < db.nextPendingId)
    && (forall day :: day in db.dailyStats ==> Balanced(db.dailyStats[day]))
  }

  lemma EmptyDbValid()
    ensures ValidDb(EmptyDb)
  {
  }

  // ------------------------------------------------------------------
  // add_lead
  // ------------------------------------------------------------------

  /** `json.dumps(reasons, ensure_ascii=False) if reasons else '[]'`. */
  function EncodeReasons(reasons: seq<string>): string {
    if reasons == [] then "[]" else DumpStrings(reasons)
  }

  /**
   * How `get_recent_leads` reads the stored reasons back: nothing for an empty text, the
   * JSON list when it parses, else the text split at ", ".
   */
  function DecodeReasons(s: string): seq<string> {
    if s == [] then []
    else match LoadStrings(s)
      case Some(xs) => xs
      case None => SplitAll(s, ", ")
  }

  /** Reasons stored by `add_lead` come back unchanged: same entries, same order. */
  lemma ReasonsRoundTrip(reasons: seq<string>)
    ensures DecodeReasons(EncodeReasons(reasons)) == reasons
  {
    DumpStringsRoundTrip(reasons);
    DumpStringsRoundTrip([]);
    assert DumpStrings([]) == "[]";
  }

  /** The bucket `add_lead` counts a score in, by the thresholds of its `INSERT`. */
  function Indicator(b: bool): nat {
    if b then 1 else 0
  }

  /**
   * Today's `daily_stats` row after `INSERT OR REPLACE`: the total and one bucket grow by one
   * from the previous row (or from zero), and every column the statement does not list —
   * the response counters and `created_at` — starts afresh.
   */
  function CountLead(prev: Option<DayStats>, score: int, now: int): (d: DayStats)
    ensures prev.Some? && Balanced(prev.value) ==> Balanced(d)
    ensures prev.None? ==> Balanced(d)
    ensures d.responsesSent == 0 && d.aiResponses == 0 && d.manualResponses == 0
  {
    var p := prev.GetOr(DayStats(0, 0, 0, 0, 0, 0, 0, 0, now));
    DayStats(p.totalLeads + 1,
             p.hotLeads + Indicator(score >= 5),
             p.goodLeads + Indicator(2 <= score < 5),
             p.normalLeads + Indicator(0 <= score < 2),
             p.lowQualityLeads + Indicator(score < 0),
             0, 0, 0, now)
  }

  /** The bucket that grows is the one of the score's tier, and only that one. */
  lemma CountLeadBucket(prev: Option<DayStats>, score: int, now: int)
    ensures var p := prev.GetOr(DayStats(0, 0, 0, 0, 0, 0, 0, 0, now));
      var d := CountLead(prev, score, now);
      && d.totalLeads == p.totalLeads + 1
      && d.hotLeads == p.hotLeads + (if TierOf(score) == Hot then 1 else 0)
      && d.goodLeads == p.goodLeads + (if TierOf(score) == Good then 1 else 0)
      && d.normalLeads == p.normalLeads + (if TierOf(score) == Normal then 1 else 0)
      && d.lowQualityLeads == p.lowQualityLeads + (if TierOf(score) == LowQuality then 1 else 0)
  {
  }

  /**
   * The `chat_sources` row after `add_lead`'s `INSERT OR REPLACE`: one more lead than before
   * (or one), active, with the new name and lead time; the unlisted `chat_type` and
   * `last_scan_time` become null and `created_at` starts afresh.
   */
  function CountSourceLead(prev: Option<ChatSourceRow>, chatName: string, now: int): (r: ChatSourceRow)
    ensures r.leadsCount == (if prev.Some? then prev.value.leadsCount else 0) + 1
    ensures r.active && r.chatName == chatName && r.lastLeadTime == Some(now)
    ensures r.chatType.None? && r.lastScanTime.None? && r.createdAt == now
  {
    var count := if prev.Some? then prev.value.leadsCount else 0;
    ChatSourceRow(chatName, None, true, count + 1, Some(now), None, now)
  }

  function Lookup<K, V>(m: map<K, V>, k: K): Option<V> {
    if k in m then Some(m[k]) else None
  }

  /**
   * `add_lead`: the new lead (its title `chat_name`, or the source when that is empty), the
   * chat source's counter and today's statistics; the result is the new lead's id.
   */
  function AddLeadTo(db: Db, now: int, chatSource: string, senderId: int, senderName: string,
                     messageText: string, score: int, qualityLabel: string, reasons: seq<string>,
                     chatName: string): (r: (Db, nat))
    ensures r.1 == db.nextLeadId && r.0.nextLeadId == r.1 + 1
    ensures |r.0.leads| == |db.leads| + 1 && r.0.leads[..|db.leads|] == db.leads
    ensures chatSource in r.0.chatSources && DayOf(now) in r.0.dailyStats
    ensures r.0.keywords == db.keywords && r.0.pending == db.pending
    ensures r.0.settings == db.settings && r.0.nextPendingId == db.nextPendingId
  {
    var title := if chatName == [] then chatSource else chatName;
    var lead := Lead(db.nextLeadId, chatSource, title, senderId, senderName, messageText, score,
                     qualityLabel, EncodeReasons(reasons), now, false, None, None, None);
    var today := DayOf(now);
    var db' := db.(leads := db.leads + [lead],
                   nextLeadId := db.nextLeadId + 1,
                   chatSources := db.chatSources[chatSource := CountSourceLead(Lookup(db.chatSources, chatSource), title, now)],
                   dailyStats := db.dailyStats[today := CountLead(Lookup(db.dailyStats, today), score, now)]);
    assert db'.leads[..|db.leads|] == db.leads;
    (db', db.nextLeadId)
  }

  /** `add_lead` keeps the store's invariant, and its id is larger than every earlier id. */
  lemma AddLeadValid(db: Db, now: int, chatSource: string, senderId: int, senderName: string,
                     messageText: string, score: int, qualityLabel: string, reasons: seq<string>,
                     chatName: string)
    requires ValidDb(db)
    ensures var r := AddLeadTo(db, now, chatSource, senderId, senderName, messageText, score, qualityLabel, reasons, chatName);
      && ValidDb(r.0)
      && r.1 > 0
      && (forall i :: 0 <= i < |db.leads| ==> db.leads[i].id < r.1)
  {
    var r := AddLeadTo(db, now, chatSource, senderId, senderName, messageText, score, qualityLabel, reasons, chatName);
    var n := |db.leads|;
    assert r.0.leads[n].id == r.1;
    forall i, j | 0 <= i < j < |r.0.leads| ensures r.0.leads[i].id < r.0.leads[j].id {
      if j < n {
        assert r.0.leads[i] == db.leads[i] && r.0.leads[j] == db.leads[j];
      } else {
        assert r.0.leads[i] == db.leads[i];
      }
    }
    assert forall i :: 0 <= i < n ==> r.0.leads[i] == db.leads[i];
  }

  /** The new lead as `add_lead` stores it. */
  lemma AddLeadRow(db: Db, now: int, chatSource: string, senderId: int, senderName: string,
                   messageText: string, score: int, qualityLabel: string, reasons: seq<string>,
                   chatName: string)
    ensures var r := AddLeadTo(db, now, chatSource, senderId, senderName, messageText, score, qualityLabel, reasons, chatName);
      var lead := r.0.leads[|db.leads|];
      && lead.id == r.1
      && lead.chatSource == chatSource && lead.senderId == senderId && lead.senderName == senderName
      && lead.messageText == messageText && lead.qualityScore == score && lead.qualityLabel == qualityLabel
      && lead.chatTitle == (if chatName == [] then chatSource else chatName)
      && DecodeReasons(lead.qualityReasons) == reasons
      && lead.timestamp == now && !lead.responded && lead.responseType.None?
      && lead.responseText.None? && lead.responseTimestamp.None?
      && r.0.chatSources[chatSource] == CountSourceLead(Lookup(db.chatSources, chatSource), lead.chatTitle, now)
      && r.0.chatSources[chatSource].leadsCount == (if chatSource in db.chatSources then db.chatSources[chatSource].leadsCount else 0) + 1
      && (forall c :: c in db.chatSources && c != chatSource ==> c in r.0.chatSources && r.0.chatSources[c] == db.chatSources[c])
      && r.0.dailyStats[DayOf(now)] == CountLead(Lookup(db.dailyStats, DayOf(now)), score, now)
  {
    ReasonsRoundTrip(reasons);
  }

  // ------------------------------------------------------------------
  // mark_lead_responded
  // ------------------------------------------------------------------

  /** The leads after `UPDATE leads ... WHERE id = ?`. */
  function MarkLead(leads: seq<Lead>, leadId: int, text: string, responseType: string, now: int): (r: seq<Lead>)
    ensures |r| == |leads|
    ensures forall i :: 0 <= i < |leads| && leads[i].id != leadId ==> r[i] == leads[i]
    ensures forall i :: 0 <= i < |leads| && leads[i].id == leadId ==>
      r[i] == leads[i].(responded := true, responseText := Some(text),
                        responseTimestamp := Some(now), responseType := Some(responseType))
  {
    seq(|leads|, i requires 0 <= i < |leads| =>
      if leads[i].id == leadId then
        leads[i].(responded := true, responseText := Some(text),
                  responseTimestamp := Some(now), responseType := Some(responseType))
      else leads[i])
  }

  /** Today's row after a response of the given type: only `ai` and `manual` are counted. */
  function CountResponse(d: DayStats, responseType: string): (r: DayStats)
    ensures Balanced(r) <==> Balanced(d)
    ensures responseType == "ai" ==> r.responsesSent == d.responsesSent + 1 && r.aiResponses == d.aiResponses + 1
    ensures responseType == "manual" ==> r.responsesSent == d.responsesSent + 1 && r.manualResponses == d.manualResponses + 1
    ensures responseType != "ai" && responseType != "manual" ==> r == d
  {
    if responseType == "ai" then d.(responsesSent := d.responsesSent + 1, aiResponses := d.aiResponses + 1)
    else if responseType == "manual" then d.(responsesSent := d.responsesSent + 1, manualResponses := d.manualResponses + 1)
    else d
  }

  /**
   * `mark_lead_responded`: the lead with that id records the response; today's statistics
   * count it when the type is `ai` or `manual` and today's row exists — whether or not a
   * lead with that id exists.
   */
  function MarkRespondedIn(db: Db, now: int, leadId: int, text: string, responseType: string): (r: Db)
    ensures r.leads == MarkLead(db.leads, leadId, text, responseType, now)
    ensures r.dailyStats.Keys == db.dailyStats.Keys
    ensures forall day :: day in db.dailyStats && day != DayOf(now) ==> r.dailyStats[day] == db.dailyStats[day]
    ensures DayOf(now) in db.dailyStats ==>
      r.dailyStats[DayOf(now)] == CountResponse(db.dailyStats[DayOf(now)], responseType)
    ensures r.keywords == db.keywords && r.chatSources == db.chatSources && r.pending == db.pending
    ensures r.settings == db.settings && r.nextLeadId == db.nextLeadId && r.nextPendingId == db.nextPendingId
  {
    var today := DayOf(now);
    var stats := if today in db.dailyStats && (responseType == "ai" || responseType == "manual")
                 then db.dailyStats[today := CountResponse(db.dailyStats[today], responseType)]
                 else db.dailyStats;
    db.(leads := MarkLead(db.leads, leadId, text, responseType, now), dailyStats := stats)
  }

  /** An `edited` response (or any type but `ai` and `manual`) changes no statistics. */
  lemma EditedChangesNoStats(db: Db, now: int, leadId: int, text: string, responseType: string)
    requires responseType != "ai" && responseType != "manual"
    ensures MarkRespondedIn(db, now, leadId, text, responseType).dailyStats == db.dailyStats
  {
  }

  /** Marking keeps the invariant, and exactly the lead with that id (if any) is marked. */
  lemma MarkRespondedValid(db: Db, now: int, leadId: int, text: string, responseType: string)
    requires ValidDb(db)
    ensures var r := MarkRespondedIn(db, now, leadId, text, responseType);
      && ValidDb(r)
      && (forall i :: 0 <= i < |r.leads| && r.leads[i] != db.leads[i] ==> r.leads[i].id == leadId)
      && (forall i, j :: 0 <= i < j < |r.leads| ==> r.leads[i].id != leadId || r.leads[j].id != leadId)
  {
    var r := MarkRespondedIn(db, now, leadId, text, responseType);
    assert forall i :: 0 <= i < |db.leads| ==> r.leads[i].id == db.leads[i].id;
  }

  // ------------------------------------------------------------------
  // Keywords
  // ------------------------------------------------------------------

  /** `phrase.lower().strip()`: how every keyword method normalises its argument. */
  function Normalize(phrase: string): (r: string)
    ensures |r| <= |phrase|
  {
    Strip(Lower(phrase))
  }

  /** Normalising twice is normalising once. */
  lemma NormalizeIdempotent(phrase: string)
    ensures Normalize(Normalize(phrase)) == Normalize(phrase)
  {
    var s := Lower(phrase);
    StripLower(Strip(s));
    StripIdempotent(s);
    StripLower(s);
    LowerIdempotent(phrase);
    assert Lower(Strip(s)) == Strip(Lower(s));
  }

  /** `add_keyword`: a new normalised phrase becomes an active row; on a duplicate nothing changes. */
  function AddKeywordTo(db: Db, now: int, phrase: string): (r: (Db, bool))
    ensures r.1 <==> Normalize(phrase) !in db.keywords
    ensures !r.1 ==> r.0 == db
    ensures r.1 ==> r.0 == db.(keywords := db.keywords[Normalize(phrase) := KeywordRow(true, 0, now, None)])
  {
    var p := Normalize(phrase);
    if p in db.keywords then (db, false)
    else (db.(keywords := db.keywords[p := KeywordRow(true, 0, now, None)]), true)
  }

  /** `remove_keyword`: true iff a row with the normalised phrase existed; it is gone afterwards. */
  function RemoveKeywordFrom(db: Db, phrase: string): (r: (Db, bool))
    ensures r.1 <==> Normalize(phrase) in db.keywords
    ensures Normalize(phrase) !in r.0.keywords
    ensures r.0 == db.(keywords := r.0.keywords)
    ensures forall q :: q != Normalize(phrase) ==> (q in r.0.keywords <==> q in db.keywords)
    ensures forall q :: q in db.keywords && q != Normalize(phrase) ==> r.0.keywords[q] == db.keywords[q]
  {
    var p := Normalize(phrase);
    (db.(keywords := db.keywords - {p}), p in db.keywords)
  }

  /** `keyword_hit`: the matching normalised phrase gains one hit; nothing else changes. */
  function KeywordHitIn(db: Db, now: int, phrase: string): (r: Db)
    ensures r.keywords.Keys == db.keywords.Keys
    ensures forall q :: q in db.keywords && q != Normalize(phrase) ==> r.keywords[q] == db.keywords[q]
    ensures Normalize(phrase) in db.keywords ==>
      CountsHit(db.keywords[Normalize(phrase)], r.keywords[Normalize(phrase)], now)
    ensures r == db.(keywords := r.keywords)
  {
    var p := Normalize(phrase);
    if p in db.keywords then
      var k := db.keywords[p];
      db.(keywords := db.keywords[p := k.(hitsCount := k.hitsCount + 1, lastHitAt := Some(now))])
    else db
  }

  /** A keyword row after one hit at `now`: one more hit, last hit now, nothing else changed. */
  predicate CountsHit(before: KeywordRow, after: KeywordRow, now: int) {
    && after.hitsCount == before.hitsCount + 1
    && after.lastHitAt == Some(now)
    && after.active == before.active
    && after.createdAt == before.createdAt
  }

  /** Adding a phrase already added under another spelling is refused and changes nothing. */
  lemma AddKeywordTwice(db: Db, now: int, now2: int, phrase: string, again: string)
    requires Normalize(again) == Normalize(phrase)
    ensures var r := AddKeywordTo(AddKeywordTo(db, now, phrase).0, now2, again);
      !r.1 && r.0 == AddKeywordTo(db, now, phrase).0
  {
  }

  /** Removing a freshly added phrase reports it and restores the keyword table. */
  lemma AddThenRemoveKeyword(db: Db, now: int, phrase: string)
    requires Normalize(phrase) !in db.keywords
    ensures var r := RemoveKeywordFrom(AddKeywordTo(db, now, phrase).0, phrase);
      r.1 && r.0 == db
  {
    var p := Normalize(phrase);
    assert db.keywords[p := KeywordRow(true, 0, now, None)] - {p} == db.keywords;
  }

  function HitsOf(kw: map<string, KeywordRow>, p: string): nat {
    if p in kw then kw[p].hitsCount else 0
  }

  /** `ORDER BY hits_count DESC, phrase`. */
  predicate KeywordBefore(kw: map<string, KeywordRow>, p: string, q: string) {
    HitsOf(kw, p) > HitsOf(kw, q) || (HitsOf(kw, p) == HitsOf(kw, q) && TextLe(p, q))
  }

  lemma KeywordOrder(kw: map<string, KeywordRow>)
    ensures TotalPreorder((p: string, q: string) => KeywordBefore(kw, p, q))
  {
    var le := (p: string, q: string) => KeywordBefore(kw, p, q);
    forall p: string, q: string ensures le(p, q) || le(q, p) {
      TextLeTotal(p, q);
    }
    forall p: string, q: string, u: string | le(p, q) && le(q, u) ensures le(p, u) {
      if HitsOf(kw, p) == HitsOf(kw, q) == HitsOf(kw, u) {
        TextLeTransitive(p, q, u);
      }
    }
  }

  /** The phrases `get_keywords` returns: the active ones, or all of them. */
  function SelectedKeywords(kw: map<string, KeywordRow>, activeOnly: bool): set<string> {
    set p | p in kw && (!activeOnly || kw[p].active)
  }

  // ------------------------------------------------------------------
  // Pending responses
  // ------------------------------------------------------------------

  /** `add_pending_response`: a new `pending` row for the lead; the result is its id. */
  function AddPendingTo(db: Db, now: int, leadId: int, aiResponse: string): (r: (Db, nat))
    ensures r.1 == db.nextPendingId && r.0.nextPendingId == r.1 + 1
    ensures r.0.pending == db.pending + [PendingResponse(r.1, leadId, aiResponse, None, "pending", now, None)]
    ensures r.0 == db.(pending := r.0.pending, nextPendingId := r.0.nextPendingId)
  {
    (db.(pending := db.pending + [PendingResponse(db.nextPendingId, leadId, aiResponse, None, "pending", now, None)],
         nextPendingId := db.nextPendingId + 1),
     db.nextPendingId)
  }

  /**
   * `update_response_status`: the row with that id gets the status and processing time, and
   * the edited text when one is given (an empty text keeps the old edit).
   */
  function UpdateStatusIn(db: Db, now: int, responseId: int, status: string, editedText: string): (r: Db)
    ensures |r.pending| == |db.pending|
    ensures forall i :: 0 <= i < |db.pending| && db.pending[i].id != responseId ==> r.pending[i] == db.pending[i]
    ensures forall i :: 0 <= i < |db.pending| && db.pending[i].id == responseId ==>
      && r.pending[i].status == status && r.pending[i].processedAt == Some(now)
      && r.pending[i].editedResponse == (if editedText == [] then db.pending[i].editedResponse else Some(editedText))
      && r.pending[i].(status := db.pending[i].status, processedAt := db.pending[i].processedAt,
                       editedResponse := db.pending[i].editedResponse) == db.pending[i]
    ensures r == db.(pending := r.pending)
  {
    var ps := seq(|db.pending|, i requires 0 <= i < |db.pending| =>
      var p := db.pending[i];
      if p.id != responseId then p
      else if editedText == [] then p.(status := status, processedAt := Some(now))
      else p.(status := status, editedResponse := Some(editedText), processedAt := Some(now)));
    db.(pending := ps)
  }

  lemma PendingValid(db: Db, now: int, leadId: int, aiResponse: string, responseId: int, status: string, editedText: string)
    requires ValidDb(db)
    ensures ValidDb(AddPendingTo(db, now, leadId, aiResponse).0)
    ensures ValidDb(UpdateStatusIn(db, now, responseId, status, editedText))
  {
    var r := UpdateStatusIn(db, now, responseId, status, editedText);
    assert forall i :: 0 <= i < |db.pending| ==> r.pending[i].id == db.pending[i].id;
    var a := AddPendingTo(db, now, leadId, aiResponse).0;
    assert forall i :: 0 <= i < |db.pending| ==> a.pending[i] == db.pending[i];
  }

  /** The first lead with the id, as the join `ON pr.lead_id = l.id` finds it. */
  function LeadById(leads: seq<Lead>, id: int): (r: Option<Lead>)
    ensures r.Some? ==> r.value in leads && r.value.id == id
    ensures r.None? ==> forall i :: 0 <= i < |leads| ==> leads[i].id != id
  {
    if leads == [] then None
    else if leads[0].id == id then Some(leads[0])
    else LeadById(leads[1..], id)
  }

  /** A row of `get_pending_responses`. */
  datatype PendingView = PendingView(id: nat, leadId: int, leadMessage: string, qualityLabel: string,
                                     chatSource: string, aiResponse: string,
                                     editedResponse: Option<string>, status: string, createdAt: int)

  /** The pending rows whose lead exists, in table order. */
  function OpenPending(pending: seq<PendingResponse>, leads: seq<Lead>): (r: seq<PendingResponse>)
    ensures forall x :: x in r <==> x in pending && x.status == "pending" && LeadById(leads, x.leadId).Some?
    decreases |pending|
  {
    if pending == [] then []
    else
      var rest := OpenPending(pending[..|pending| - 1], leads);
      var p := pending[|pending| - 1];
      assert pending == pending[..|pending| - 1] + [p];
      if p.status == "pending" && LeadById(leads, p.leadId).Some? then rest + [p] else rest
  }

  /** `ORDER BY created_at DESC`. */
  predicate CreatedLater(a: PendingResponse, b: PendingResponse) {
    a.createdAt >= b.createdAt
  }

  function PendingViewOf(p: PendingResponse, leads: seq<Lead>): PendingView
    requires LeadById(leads, p.leadId).Some?
  {
    var l := LeadById(leads, p.leadId).value;
    PendingView(p.id, p.leadId, l.messageText, l.qualityLabel, l.chatSource, p.aiResponse,
                p.editedResponse, p.status, p.createdAt)
  }

  /** `get_pending_responses`: the open rows joined with their leads, newest first. */
  function PendingQuery(db: Db): (r: seq<PendingResponse>)
    ensures multiset(r) == multiset(OpenPending(db.pending, db.leads))
    ensures SortedBy(r, CreatedLater)
    ensures forall i :: 0 <= i < |r| ==> r[i].status == "pending" && LeadById(db.leads, r[i].leadId).Some?
  {
    var open := OpenPending(db.pending, db.leads);
    SortBySorted(open, CreatedLater);
    var r := SortBy(open, CreatedLater);
    assert forall i :: 0 <= i < |r| ==> r[i] in multiset(open);
    r
  }

  // ------------------------------------------------------------------
  // Chat sources
  // ------------------------------------------------------------------

  /** `add_chat_source`: a new id becomes an active row named `chat_name or chat_id`. */
  function AddChatSourceTo(db: Db, now: int, chatId: string, chatName: string, chatType: Option<string>): (r: (Db, bool))
    ensures r.1 <==> chatId !in db.chatSources
    ensures !r.1 ==> r.0 == db
    ensures r.1 ==> r.0 == db.(chatSources := db.chatSources[chatId :=
      ChatSourceRow(if chatName == [] then chatId else chatName, chatType, true, 0, None, None, now)])
  {
    if chatId in db.chatSources then (db, false)
    else
      var name := if chatName == [] then chatId else chatName;
      (db.(chatSources := db.chatSources[chatId := ChatSourceRow(name, chatType, true, 0, None, None, now)]), true)
  }

  /** `remove_chat_source`: true iff the row existed; it is gone afterwards. */
  function RemoveChatSourceFrom(db: Db, chatId: string): (r: (Db, bool))
    ensures r.1 <==> chatId in db.chatSources
    ensures chatId !in r.0.chatSources
    ensures r.0 == db.(chatSources := r.0.chatSources)
    ensures forall q :: q != chatId ==> (q in r.0.chatSources <==> q in db.chatSources)
    ensures forall q :: q in db.chatSources && q != chatId ==> r.0.chatSources[q] == db.chatSources[q]
  {
    (db.(chatSources := db.chatSources - {chatId}), chatId in db.chatSources)
  }

  /** `ORDER BY leads_count DESC, chat_name`; sources with equal keys may come in either order. */
  predicate SourceBefore(cs: map<string, ChatSourceRow>, a: string, b: string) {
    var ca := if a in cs then cs[a].leadsCount else 0;
    var cb := if b in cs then cs[b].leadsCount else 0;
    var na := if a in cs then cs[a].chatName else [];
    var nb := if b in cs then cs[b].chatName else [];
    ca > cb || (ca == cb && TextLe(na, nb))
  }

  lemma SourceOrder(cs: map<string, ChatSourceRow>)
    ensures TotalPreorder((a: string, b: string) => SourceBefore(cs, a, b))
  {
    var le := (a: string, b: string) => SourceBefore(cs, a, b);
    forall a: string, b: string ensures le(a, b) || le(b, a) {
      TextLeTotal(if a in cs then cs[a].chatName else [], if b in cs then cs[b].chatName else []);
    }
    forall a: string, b: string, c: string | le(a, b) && le(b, c) ensures le(a, c) {
      var ca := if a in cs then cs[a].leadsCount else 0;
      var cb := if b in cs then cs[b].leadsCount else 0;
      var cc := if c in cs then cs[c].leadsCount else 0;
      if ca == cb == cc {
        TextLeTransitive(if a in cs then cs[a].chatName else [], if b in cs then cs[b].chatName else [],
                         if c in cs then cs[c].chatName else []);
      }
    }
  }

  /** A row of `get_chat_sources`. */
  datatype SourceView = SourceView(chatId: string, chatName: string, chatType: Option<string>,
                                   active: bool, leadsCount: nat, lastLeadTime: Option<int>,
                                   lastScanTime: Option<int>, createdAt: int)

  // ------------------------------------------------------------------
  // Settings
  // ------------------------------------------------------------------

  /** Python's `str(v)` for a scalar. */
  function StrOf(v: Scalar): string {
    match v
    case PyInt(i) => IntToString(i)
    case PyBool(b) => if b then "True" else "False"
    case PyStr(s) => s
    case PyNone => "None"
  }

  /** The stored text of a value under `set_setting`'s type tag. */
  function SettingText(v: Scalar, valueType: string): string {
    if valueType == "json" then DumpScalar(v)
    else if valueType == "bool" then Lower(StrOf(v))
    else StrOf(v)
  }

  /** `set_setting`: the key's row is replaced by the stored text, its type and the time. */
  function SetSettingIn(db: Db, now: int, key: string, v: Scalar, valueType: string): (r: Db)
    ensures key in r.settings && r.settings[key].valueType == valueType
    ensures forall k :: k != key ==> Lookup(r.settings, k) == Lookup(db.settings, k)
    ensures r == db.(settings := r.settings)
  {
    db.(settings := db.settings[key := Setting(SettingText(v, valueType), valueType, now)])
  }

  /**
   * `get_setting`: the default when the key is absent, else the text read back by its type
   * tag; `Err` where `int(...)` or `json.loads` raises.
   */
  function SettingOf(db: Db, key: string, default: Scalar): Result<Scalar, string> {
    if key !in db.settings then Ok(default)
    else
      var s := db.settings[key];
      if s.valueType == "int" then
        match ParseInt(s.value)
        case Some(n) => Ok(PyInt(n))
        case None => Err("ValueError")
      else if s.valueType == "bool" then Ok(PyBool(Lower(s.value) == "true"))
      else if s.valueType == "json" then
        match LoadScalar(s.value)
        case Some(x) => Ok(x)
        case None => Err("JSONDecodeError")
      else Ok(PyStr(s.value))
  }

  /** The type tag under which a value reads back as itself. */
  predicate Fits(v: Scalar, valueType: string) {
    || valueType == "json"
    || (valueType == "int" && v.PyInt?)
    || (valueType == "bool" && v.PyBool?)
    || (valueType != "int" && valueType != "bool" && valueType != "json" && v.PyStr?)
  }

  /** A setting written with a fitting type tag reads back as the same value. */
  lemma SettingRoundTrip(db: Db, now: int, key: string, v: Scalar, valueType: string, default: Scalar)
    requires Fits(v, valueType)
    ensures SettingOf(SetSettingIn(db, now, key, v, valueType), key, default) == Ok(v)
  {
    if valueType == "json" {
      DumpScalarRoundTrip(v);
    } else if valueType == "int" {
      IntToStringRoundTrip(v.i);
    } else if valueType == "bool" {
      assert Lower("True") == "true";
      assert Lower("False") == "false";
      assert Lower(Lower("True")) == "true";
      assert Lower(Lower("False")) == "false";
    }
  }

  /** Writing one setting leaves every other key's reading unchanged. */
  lemma SettingFrame(db: Db, now: int, key: string, v: Scalar, valueType: string, other: string, default: Scalar)
    requires other != key
    ensures SettingOf(SetSettingIn(db, now, key, v, valueType), other, default) == SettingOf(db, other, default)
  {
    assert Lookup(SetSettingIn(db, now, key, v, valueType).settings, other) == Lookup(db.settings, other);
  }

  // ------------------------------------------------------------------
  // Queries over leads
  // ------------------------------------------------------------------

  /** The leads from `dateFrom` on, in table order. */
  function LeadsSince(leads: seq<Lead>, dateFrom: int): (r: seq<Lead>)
    ensures |r| <= |leads|
    ensures forall x :: x in r <==> x in leads && x.timestamp >= dateFrom
    decreases |leads|
  {
    if leads == [] then []
    else
      var rest := LeadsSince(leads[..|leads| - 1], dateFrom);
      var l := leads[|leads| - 1];
      assert leads == leads[..|leads| - 1] + [l];
      if l.timestamp >= dateFrom then rest + [l] else rest
  }

  /** `ORDER BY timestamp DESC`. */
  predicate NewerFirst(a: Lead, b: Lead) {
    a.timestamp >= b.timestamp
  }

  /** SQLite's `LIMIT n`: a negative limit means no limit. */
  function Limit<T>(s: seq<T>, limit: int): (r: seq<T>)
    ensures |r| == if 0 <= limit < |s| then limit else |s|
    ensures r == s[..|r|]
  {
    if 0 <= limit < |s| then s[..limit] else s
  }

  /** The rows `get_recent_leads` selects: from `dateFrom` on, newest first, at most `limit`. */
  function RecentQuery(db: Db, dateFrom: int, limit: int): (r: seq<Lead>)
    ensures 0 <= limit ==> |r| <= limit
    ensures |r| == if 0 <= limit < |LeadsSince(db.leads, dateFrom)| then limit else |LeadsSince(db.leads, dateFrom)|
    ensures SortedBy(r, NewerFirst)
    ensures forall i :: 0 <= i < |r| ==> r[i] in db.leads && r[i].timestamp >= dateFrom
    ensures multiset(r) <= multiset(LeadsSince(db.leads, dateFrom))
    ensures (limit < 0 || |LeadsSince(db.leads, dateFrom)| <= limit) ==>
      multiset(r) == multiset(LeadsSince(db.leads, dateFrom))
    ensures forall x :: multiset(r)[x] < multiset(LeadsSince(db.leads, dateFrom))[x] ==>
      forall i :: 0 <= i < |r| ==> NewerFirst(r[i], x)
  {
    var since := LeadsSince(db.leads, dateFrom);
    var sorted := SortBy(since, NewerFirst);
    SortBySorted(since, NewerFirst);
    LimitKeeps(sorted, limit, NewerFirst);
    var r := Limit(sorted, limit);
    forall i | 0 <= i < |r| ensures r[i] in db.leads && r[i].timestamp >= dateFrom {
      assert r[i] in multiset(since);
    }
    forall x | multiset(r)[x] < multiset(since)[x] ensures forall i :: 0 <= i < |r| ==> NewerFirst(r[i], x) {
      LimitOmitsLater(sorted, limit, NewerFirst, x);
    }
    r
  }

  /** What a limit cuts from a sorted sequence comes after everything it keeps. */
  lemma LimitOmitsLater<T>(s: seq<T>, limit: int, le: (T, T) -> bool, x: T)
    requires SortedBy(s, le)
    requires multiset(Limit(s, limit))[x] < multiset(s)[x]
    ensures forall i :: 0 <= i < |Limit(s, limit)| ==> le(Limit(s, limit)[i], x)
  {
    var r := Limit(s, limit);
    var rest := s[|r|..];
    assert s == r + rest;
    assert multiset(s) == multiset(r) + multiset(rest);
    assert x in multiset(rest);
    var k :| 0 <= k < |rest| && rest[k] == x;
    assert s[|r| + k] == x;
    forall i | 0 <= i < |r| ensures le(r[i], x) {
      assert r[i] == s[i];
    }
  }

  /** A limited sorted sequence is sorted and a sub-multiset, all of it when nothing is cut. */
  lemma LimitKeeps<T>(s: seq<T>, limit: int, le: (T, T) -> bool)
    requires SortedBy(s, le)
    ensures SortedBy(Limit(s, limit), le)
    ensures multiset(Limit(s, limit)) <= multiset(s)
    ensures (limit < 0 || |s| <= limit) ==> Limit(s, limit) == s
  {
    var r := Limit(s, limit);
    assert s == r + s[|r|..];
    assert multiset(s) == multiset(r) + multiset(s[|r|..]);
  }

  /** A row of `get_recent_leads`; the title falls back to the source, the reasons are decoded. */
  datatype LeadView = LeadView(id: nat, chatSource: string, chatTitle: string, senderId: int,
                               senderName: string, messageText: string, qualityScore: int,
                               qualityLabel: string, qualityReasons: seq<string>, timestamp: int,
                               responded: bool, responseText: Option<string>)

  function LeadViewOf(l: Lead): (v: LeadView)
    ensures v.chatTitle == (if l.chatTitle == [] then l.chatSource else l.chatTitle)
    ensures v.qualityReasons == DecodeReasons(l.qualityReasons)
  {
    LeadView(l.id, l.chatSource, if l.chatTitle == [] then l.chatSource else l.chatTitle, l.senderId,
             l.senderName, l.messageText, l.qualityScore, l.qualityLabel,
             DecodeReasons(l.qualityReasons), l.timestamp, l.responded, l.responseText)
  }

  /** The counts of `get_leads_stats`. */
  datatype LeadsStats = LeadsStats(totalLeads: nat, hotLeads: nat, goodLeads: nat, normalLeads: nat,
                                   lowQualityLeads: nat, responded: nat)

  /** The `COUNT`/`SUM(CASE ...)` aggregate over some leads. */
  function StatsOf(leads: seq<Lead>): (s: LeadsStats)
    ensures s.totalLeads == |leads|
    decreases |leads|
  {
    if leads == [] then LeadsStats(0, 0, 0, 0, 0, 0)
    else
      var s := StatsOf(leads[..|leads| - 1]);
      var q := leads[|leads| - 1].qualityScore;
      LeadsStats(s.totalLeads + 1,
                 s.hotLeads + Indicator(q >= 5),
                 s.goodLeads + Indicator(q >= 2 && q < 5),
                 s.normalLeads + Indicator(q >= 0 && q < 2),
                 s.lowQualityLeads + Indicator(q < 0),
                 s.responded + Indicator(leads[|leads| - 1].responded))
  }

  /** The four buckets partition the leads, and no more leads are answered than exist. */
  lemma {:induction false} StatsPartition(leads: seq<Lead>)
    ensures var s := StatsOf(leads);
      && s.hotLeads + s.goodLeads + s.normalLeads + s.lowQualityLeads == s.totalLeads
      && s.responded <= s.totalLeads
    decreases |leads|
  {
    if leads != [] {
      StatsPartition(leads[..|leads| - 1]);
    }
  }

  /** `get_leads_stats(days)`: the aggregate over the leads of the last `days` days. */
  function LeadsStatsOf(db: Db, now: int, days: int): (s: LeadsStats)
    ensures s.hotLeads + s.goodLeads + s.normalLeads + s.lowQualityLeads == s.totalLeads
    ensures s.responded <= s.totalLeads
    ensures s.totalLeads == |LeadsSince(db.leads, now - days * SecondsPerDay)|
  {
    var since := LeadsSince(db.leads, now - days * SecondsPerDay);
    StatsPartition(since);
    StatsOf(since)
  }

  // ------------------------------------------------------------------
  // The store object
  // ------------------------------------------------------------------

  class SharedDatabase {
    var leads: seq<Lead>
    var nextLeadId: nat
    var keywords: map<string, KeywordRow>
    var chatSources: map<string, ChatSourceRow>
    var dailyStats: map<int, DayStats>
    var pending: seq<PendingResponse>
    var nextPendingId: nat
    var settings: map<string, Setting>

    /** The tables as one value. */
    function Tables(): Db
      reads this
    {
      Db(leads, nextLeadId, keywords, chatSources, dailyStats, pending, nextPendingId, settings)
    }

    ghost predicate Valid()
      reads this
    {
      ValidDb(Tables())
    }

    method Assign(db: Db)
      modifies this
      ensures Tables() == db
    {
      leads, nextLeadId, keywords, chatSources := db.leads, db.nextLeadId, db.keywords, db.chatSources;
      dailyStats, pending, nextPendingId, settings := db.dailyStats, db.pending, db.nextPendingId, db.settings;
    }

    /** `init_database`: every table exists and is empty. */
    constructor ()
      ensures Tables() == EmptyDb && Valid()
    {
      leads, nextLeadId, keywords, chatSources := [], 1, map[], map[];
      dailyStats, pending, nextPendingId, settings := map[], [], 1, map[];
      EmptyDbValid();
    }

    method AddLead(now: int, chatSource: string, senderId: int, senderName: string, messageText: string,
                   score: int, qualityLabel: string, reasons: seq<string>, chatName: string) returns (leadId: nat)
      requires Valid()
      modifies this
      ensures (Tables(), leadId) == AddLeadTo(old(Tables()), now, chatSource, senderId, senderName,
                                              messageText, score, qualityLabel, reasons, chatName)
      ensures Valid()
      ensures forall i :: 0 <= i < |old(leads)| ==> old(leads)[i].id < leadId
    {
      var r := AddLeadTo(Tables(), now, chatSource, senderId, senderName, messageText, score, qualityLabel, reasons, chatName);
      AddLeadValid(Tables(), now, chatSource, senderId, senderName, messageText, score, qualityLabel, reasons, chatName);
      Assign(r.0);
      leadId := r.1;
    }

    method MarkLeadResponded(now: int, leadId: int, text: string, responseType: string)
      requires Valid()
      modifies this
      ensures Tables() == MarkRespondedIn(old(Tables()), now, leadId, text, responseType)
      ensures Valid()
    {
      MarkRespondedValid(Tables(), now, leadId, text, responseType);
      Assign(MarkRespondedIn(Tables(), now, leadId, text, responseType));
    }

    method AddKeyword(now: int, phrase: string) returns (added: bool)
      requires Valid()
      modifies this
      ensures (Tables(), added) == AddKeywordTo(old(Tables()), now, phrase)
      ensures Valid()
    {
      var r := AddKeywordTo(Tables(), now, phrase);
      Assign(r.0);
      added := r.1;
    }

    method RemoveKeyword(phrase: string) returns (removed: bool)
      requires Valid()
      modifies this
      ensures (Tables(), removed) == RemoveKeywordFrom(old(Tables()), phrase)
      ensures Valid()
    {
      var r := RemoveKeywordFrom(Tables(), phrase);
      Assign(r.0);
      removed := r.1;
    }

    method KeywordHit(now: int, phrase: string)
      requires Valid()
      modifies this
      ensures Tables() == KeywordHitIn(old(Tables()), now, phrase)
      ensures Valid()
    {
      Assign(KeywordHitIn(Tables(), now, phrase));
    }

    /**
     * `get_keywords`: every selected phrase exactly once, most hits first and, among equal
     * hits, in text order.
     */
    method GetKeywords(activeOnly: bool) returns (r: seq<string>)
      ensures multiset(r) == multiset(SelectedKeywords(keywords, activeOnly))
      ensures forall i, j :: 0 <= i < j < |r| ==> KeywordBefore(keywords, r[i], r[j])
    {
      var kw := keywords;
      KeywordOrder(kw);
      r := SortSet(SelectedKeywords(kw, activeOnly), (p: string, q: string) => KeywordBefore(kw, p, q));
    }

    method AddPendingResponse(now: int, leadId: int, aiResponse: string) returns (responseId: nat)
      requires Valid()
      modifies this
      ensures (Tables(), responseId) == AddPendingTo(old(Tables()), now, leadId, aiResponse)
      ensures Valid()
    {
      var r := AddPendingTo(Tables(), now, leadId, aiResponse);
      PendingValid(Tables(), now, leadId, aiResponse, 0, "", "");
      Assign(r.0);
      responseId := r.1;
    }

    method UpdateResponseStatus(now: int, responseId: int, status: string, editedText: string)
      requires Valid()
      modifies this
      ensures Tables() == UpdateStatusIn(old(Tables()), now, responseId, status, editedText)
      ensures Valid()
    {
      PendingValid(Tables(), now, 0, "", responseId, status, editedText);
      Assign(UpdateStatusIn(Tables(), now, responseId, status, editedText));
    }

    /** `get_pending_responses`: the rows of `PendingQuery`, each joined with its lead. */
    method GetPendingResponses() returns (r: seq<PendingView>)
      ensures |r| == |PendingQuery(Tables())|
      ensures forall i :: 0 <= i < |r| ==> r[i] == PendingViewOf(PendingQuery(Tables())[i], leads)
    {
      var rows := PendingQuery(Tables());
      r := [];
      for i := 0 to |rows|
        invariant |r| == i
        invariant forall k :: 0 <= k < i ==> r[k] == PendingViewOf(rows[k], leads)
      {
        r := r + [PendingViewOf(rows[i], leads)];
      }
    }

    method AddChatSource(now: int, chatId: string, chatName: string, chatType: Option<string>) returns (added: bool)
      requires Valid()
      modifies this
      ensures (Tables(), added) == AddChatSourceTo(old(Tables()), now, chatId, chatName, chatType)
      ensures Valid()
    {
      var r := AddChatSourceTo(Tables(), now, chatId, chatName, chatType);
      Assign(r.0);
      added := r.1;
    }

    method RemoveChatSource(chatId: string) returns (removed: bool)
      requires Valid()
      modifies this
      ensures (Tables(), removed) == RemoveChatSourceFrom(old(Tables()), chatId)
      ensures Valid()
    {
      var r := RemoveChatSourceFrom(Tables(), chatId);
      Assign(r.0);
      removed := r.1;
    }

    /** `get_chat_sources`: every source once, most leads first, then by name. */
    method GetChatSources() returns (r: seq<SourceView>)
      ensures |r| == |chatSources|
      ensures forall i :: 0 <= i < |r| ==> r[i].chatId in chatSources
      ensures forall i, j :: 0 <= i < j < |r| ==> r[i].chatId != r[j].chatId
      ensures forall i :: 0 <= i < |r| ==>
        var row := chatSources[r[i].chatId];
        r[i] == SourceView(r[i].chatId, row.chatName, row.chatType, row.active, row.leadsCount,
                           row.lastLeadTime, row.lastScanTime, row.createdAt)
      ensures forall i, j :: 0 <= i < j < |r| ==> SourceBefore(chatSources, r[i].chatId, r[j].chatId)
    {
      var cs := chatSources;
      SourceOrder(cs);
      var ids := SortSet(cs.Keys, (a: string, b: string) => SourceBefore(cs, a, b));
      SortedDistinct(ids, cs.Keys);
      r := [];
      for i := 0 to |ids|
        invariant |r| == i
        invariant forall k :: 0 <= k < i ==> r[k].chatId == ids[k]
        invariant forall k :: 0 <= k < i ==>
          var row := cs[ids[k]];
          r[k] == SourceView(ids[k], row.chatName, row.chatType, row.active, row.leadsCount,
                             row.lastLeadTime, row.lastScanTime, row.createdAt)
      {
        assert ids[i] in multiset(cs.Keys);
        var row := cs[ids[i]];
        r := r + [SourceView(ids[i], row.chatName, row.chatType, row.active, row.leadsCount,
                             row.lastLeadTime, row.lastScanTime, row.createdAt)];
      }
    }

    method SetSetting(now: int, key: string, v: Scalar, valueType: string)
      requires Valid()
      modifies this
      ensures Tables() == SetSettingIn(old(Tables()), now, key, v, valueType)
      ensures Valid()
    {
      Assign(SetSettingIn(Tables(), now, key, v, valueType));
    }

    method GetSetting(key: string, default: Scalar) returns (r: Result<Scalar, string>)
      ensures r == SettingOf(Tables(), key, default)
      ensures key !in settings ==> r == Ok(default)
    {
      r := SettingOf(Tables(), key, default);
    }

    /** `get_recent_leads`: the rows of `RecentQuery` for the last `hoursBack` hours, as views. */
    method GetRecentLeads(now: int, limit: int, hoursBack: int) returns (r: seq<LeadView>)
      ensures var rows := RecentQuery(Tables(), now - hoursBack * SecondsPerHour, limit);
        |r| == |rows| && forall i :: 0 <= i < |r| ==> r[i] == LeadViewOf(rows[i])
    {
      var rows := RecentQuery(Tables(), now - hoursBack * SecondsPerHour, limit);
      r := [];
      for i := 0 to |rows|
        invariant |r| == i
        invariant forall k :: 0 <= k < i ==> r[k] == LeadViewOf(rows[k])
      {
        r := r + [LeadViewOf(rows[i])];
      }
    }

    function GetLeadsStats(now: int, days: int): (s: LeadsStats)
      reads this
      ensures s == LeadsStatsOf(Tables(), now, days)
      ensures s.hotLeads + s.goodLeads + s.normalLeads + s.lowQualityLeads == s.totalLeads
    {
      LeadsStatsOf(Tables(), now, days)
    }
  }

  /** A sequence with the same multiset as a set holds each element once. */
  lemma SortedDistinct<T>(s: seq<T>, keys: set<T>)
    requires multiset(s) == multiset(keys)
    ensures forall i, j :: 0 <= i < j < |s| ==> s[i] != s[j]
    ensures forall i :: 0 <= i < |s| ==> s[i] in keys
    ensures |s| == |keys|
  {
    forall i, j | 0 <= i < j < |s| ensures s[i] != s[j] {
      CountPair(s, i, j);
      assert multiset(keys)[s[i]] <= 1;
    }
    forall i | 0 <= i < |s| ensures s[i] in keys {
      assert s[i] in multiset(s);
    }
    assert |multiset(s)| == |s|;
    assert |multiset(keys)| == |keys|;
  }

  lemma CountPair<T>(s: seq<T>, i: nat, j: nat)
    requires i < j < |s|
    ensures s[i] == s[j] ==> multiset(s)[s[i]] >= 2
  {
    if s[i] == s[j] {
      MultisetCountTwo(s, i, j);
    }
  }
}
