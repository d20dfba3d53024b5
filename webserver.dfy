/**
 * The web interface's route bodies (web_server.py): the simplified scorer, the keyword test,
 * and the validation and dispatch of the keyword, chat-source and response-action routes.
 * Each route answers with the JSON object it builds; an uncaught Python error becomes
 * `ServerError`.
 */
module WebServer {
  import opened Wrappers
  import opened Text
  import opened Scoring
  import opened LeadStore

  // ------------------------------------------------------------------
  // analyze_lead_quality_simple
  // ------------------------------------------------------------------

  /** The simplified scorer's positive table, in its order. */
  const SimplePositive: seq<Signal> := [
    Signal("бюджет", 3, "💰 Упоминает бюджет"),
    Signal("срочно", 2, "⚡ Срочная потребность"),
    Signal("опытного", 2, "⭐ Ищет опытного"),
    Signal("профессионал", 2, "⭐ Ищет профессионала")
  ]

  /** The simplified scorer's negative table, in its order. */
  const SimpleNegative: seq<Signal> := [
    Signal("бесплатно", -5, "🚫 Ищет бесплатно"),
    Signal("дешево", -2, "💸 Ищет дешево"),
    Signal("стажер", -2, "👶 Ищет стажера")
  ]

  /**
   * `analyze_lead_quality_simple`: the same loops and label ladder as the bot's scorer, over
   * the smaller tables.
   */
  method AnalyzeLeadQualitySimple(text: string) returns (a: Analysis)
    ensures a == Analyzed(SimplePositive, SimpleNegative, text)
    ensures a.quality == TierLabel(TierOf(a.score))
    ensures |a.reasons| == |Fired(SimplePositive, Lower(text))| + |Fired(SimpleNegative, Lower(text))|
  {
    a := Analyze(SimplePositive, SimpleNegative, text);
  }

  /** The simplified tables: positives add up to 9, negatives to -9. */
  lemma SimpleTableTotals()
    ensures MaxGain(SimplePositive) == 9 && MaxLoss(SimplePositive) == 0
    ensures MaxGain(SimpleNegative) == 0 && MaxLoss(SimpleNegative) == -9
  {
    MaxStep(SimplePositive, 0);
    MaxStep(SimplePositive, 1);
    MaxStep(SimplePositive, 2);
    MaxStep(SimplePositive, 3);
    assert SimplePositive[..4] == SimplePositive;
    MaxStep(SimpleNegative, 0);
    MaxStep(SimpleNegative, 1);
    MaxStep(SimpleNegative, 2);
    assert SimpleNegative[..3] == SimpleNegative;
  }

  /** The simplified score always lies in [-9, 9]. */
  lemma SimpleScoreBounds(text: string)
    ensures -9 <= Analyzed(SimplePositive, SimpleNegative, text).score <= 9
  {
    AnalysisBounds(SimplePositive, SimpleNegative, text);
    SimpleTableTotals();
  }

  // ------------------------------------------------------------------
  // Route answers
  // ------------------------------------------------------------------

  /** `{'status': 'success' | 'error', 'message': ...}`. */
  datatype ApiStatus = ApiStatus(success: bool, message: string)

  /** A route's answer; `ServerError` is an exception Flask turns into status 500. */
  datatype Answer<T> = Answered(body: T) | ServerError

  /** The answer of `test_keyword`. */
  datatype KeywordTest =
    | TestRejected(message: string)
    | TestDone(hit: bool, quality: Analysis, message: string)

  /** Some selected keyword occurs in the lower-cased message. */
  predicate SomeKeywordIn(keywords: set<string>, message: string) {
    exists p :: p in keywords && Contains(Lower(message), p)
  }

  /** Matching against a listing of a set is matching against the set. */
  lemma MatchListing(listing: seq<string>, keywords: set<string>, message: string)
    requires multiset(listing) == multiset(keywords)
    ensures KeywordMatch(listing, message) <==> SomeKeywordIn(keywords, message)
  {
    if KeywordMatch(listing, message) {
      var i :| 0 <= i < |listing| && Contains(Lower(message), listing[i]);
      assert listing[i] in multiset(listing);
    }
    if SomeKeywordIn(keywords, message) {
      var p :| p in keywords && Contains(Lower(message), p);
      assert p in multiset(listing);
      var i :| 0 <= i < |listing| && listing[i] == p;
    }
  }

  /**
   * `test_keyword`: an empty message is refused; otherwise `hit` says whether an active
   * keyword occurs in the lower-cased message, and the simplified analysis comes along.
   */
  method TestKeyword(db: SharedDatabase, message: string) returns (r: KeywordTest)
    ensures message == [] ==> r == TestRejected("Сообщение не может быть пустым")
    ensures message != [] ==>
      && r.TestDone?
      && (r.hit <==> SomeKeywordIn(SelectedKeywords(db.keywords, true), message))
      && r.quality == Analyzed(SimplePositive, SimpleNegative, message)
      && r.message == (if r.hit then "Совпадение найдено" else "Совпадений не найдено")
  {
    if message == [] {
      return TestRejected("Сообщение не может быть пустым");
    }
    var keywords := db.GetKeywords(true);
    var hit := KwHit(keywords, message);
    MatchListing(keywords, SelectedKeywords(db.keywords, true), message);
    var quality := AnalyzeLeadQualitySimple(message);
    r := TestDone(hit, quality, if hit then "Совпадение найдено" else "Совпадений не найдено");
  }

  // ------------------------------------------------------------------
  // manage_keywords
  // ------------------------------------------------------------------

  /** The phrase `manage_keywords` reads: `data.get('phrase', '').strip().lower()`. */
  function RoutePhrase(phrase: string): (p: string)
    ensures p == Normalize(phrase)
  {
    StripLower(phrase);
    Lower(Strip(phrase))
  }

  /**
   * POST `/api/keywords`: an empty phrase is refused and nothing is inserted; otherwise the
   * store adds it, and a phrase already present is reported.
   */
  method PostKeyword(db: SharedDatabase, now: int, phrase: string) returns (r: ApiStatus)
    requires db.Valid()
    modifies db
    ensures Normalize(phrase) == [] ==> r == ApiStatus(false, "Пустое ключевое слово") && db.Tables() == old(db.Tables())
    ensures Normalize(phrase) != [] ==> db.Tables() == AddKeywordTo(old(db.Tables()), now, phrase).0
    ensures Normalize(phrase) != [] ==>
      r == (if Normalize(phrase) !in old(db.keywords) then ApiStatus(true, "Ключевое слово добавлено")
            else ApiStatus(false, "Такое ключевое слово уже существует"))
    ensures db.Valid()
  {
    var p := RoutePhrase(phrase);
    if p == [] {
      return ApiStatus(false, "Пустое ключевое слово");
    }
    SameKeyword(db.Tables(), now, p, phrase);
    var ok := db.AddKeyword(now, p);
    r := if ok then ApiStatus(true, "Ключевое слово добавлено") else ApiStatus(false, "Такое ключевое слово уже существует");
  }

  /** Adding a phrase or its normal form is the same insert. */
  lemma SameKeyword(d: Db, now: int, p: string, phrase: string)
    requires p == Normalize(phrase)
    ensures AddKeywordTo(d, now, p) == AddKeywordTo(d, now, phrase)
  {
    NormalizeIdempotent(phrase);
  }

  /**
   * DELETE `/api/keywords`: a missing `phrase` argument makes `remove_keyword` call `.lower()`
   * on None, which raises; otherwise the store removes the phrase.
   */
  method DeleteKeyword(db: SharedDatabase, phrase: Option<string>) returns (r: Answer<ApiStatus>)
    requires db.Valid()
    modifies db
    ensures phrase.None? ==> r == ServerError && db.Tables() == old(db.Tables())
    ensures phrase.Some? ==> db.Tables() == RemoveKeywordFrom(old(db.Tables()), phrase.value).0
    ensures phrase.Some? ==> r == Answered(
      if Normalize(phrase.value) in old(db.keywords) then ApiStatus(true, "Ключевое слово удалено")
      else ApiStatus(false, "Ключевое слово не найдено"))
    ensures db.Valid()
  {
    if phrase.None? {
      return ServerError;
    }
    var ok := db.RemoveKeyword(phrase.value);
    r := Answered(if ok then ApiStatus(true, "Ключевое слово удалено") else ApiStatus(false, "Ключевое слово не найдено"));
  }

  // ------------------------------------------------------------------
  // manage_chat_sources
  // ------------------------------------------------------------------

  /**
   * POST `/api/chat-sources`: the id is stripped and an empty id is refused with no insert;
   * a missing name defaults to the id (and so does an empty one, in the store).
   */
  method PostChatSource(db: SharedDatabase, now: int, chatId: string, chatName: Option<string>) returns (r: ApiStatus)
    requires db.Valid()
    modifies db
    ensures Strip(chatId) == [] ==> r == ApiStatus(false, "Пустой ID чата") && db.Tables() == old(db.Tables())
    ensures Strip(chatId) != [] ==>
      db.Tables() == AddChatSourceTo(old(db.Tables()), now, Strip(chatId), chatName.GetOr(Strip(chatId)), None).0
    ensures Strip(chatId) != [] ==>
      r == (if Strip(chatId) !in old(db.chatSources) then ApiStatus(true, "Источник чата добавлен")
            else ApiStatus(false, "Такой источник уже существует"))
    ensures db.Valid()
  {
    var id := Strip(chatId);
    var name := chatName.GetOr(id);
    if id != [] {
      var ok := db.AddChatSource(now, id, name, None);
      if ok {
        return ApiStatus(true, "Источник чата добавлен");
      } else {
        return ApiStatus(false, "Такой источник уже существует");
      }
    }
    return ApiStatus(false, "Пустой ID чата");
  }

  /** The stored name of a source added through the route is never empty. */
  lemma PostedSourceNamed(db: Db, now: int, chatId: string, chatName: Option<string>)
    requires Strip(chatId) != [] && Strip(chatId) !in db.chatSources
    ensures var id := Strip(chatId);
      var r := AddChatSourceTo(db, now, id, chatName.GetOr(id), None).0;
      id in r.chatSources && r.chatSources[id].chatName != [] && r.chatSources[id].leadsCount == 0
  {
  }

  /**
   * DELETE `/api/chat-sources`: a missing `chat_id` matches no row (`WHERE chat_id = NULL`),
   * so it is reported as not found.
   */
  method DeleteChatSource(db: SharedDatabase, chatId: Option<string>) returns (r: ApiStatus)
    requires db.Valid()
    modifies db
    ensures chatId.None? ==> r == ApiStatus(false, "Источник не найден") && db.Tables() == old(db.Tables())
    ensures chatId.Some? ==> db.Tables() == RemoveChatSourceFrom(old(db.Tables()), chatId.value).0
    ensures chatId.Some? ==> r == (if chatId.value in old(db.chatSources) then ApiStatus(true, "Источник чата удален")
                                   else ApiStatus(false, "Источник не найден"))
    ensures db.Valid()
  {
    if chatId.None? {
      return ApiStatus(false, "Источник не найден");
    }
    var ok := db.RemoveChatSource(chatId.value);
    r := if ok then ApiStatus(true, "Источник чата удален") else ApiStatus(false, "Источник не найден");
  }

  // ------------------------------------------------------------------
  // handle_response_action
  // ------------------------------------------------------------------

  /** The status and edited text an action writes, and the message it answers with. */
  function ActionEffect(action: string, editedText: string): (r: Option<(string, string, string)>)
    ensures r.Some? <==> action == "approve" || action == "reject" || action == "edit"
    ensures action == "approve" ==> r == Some(("approved", "", "Ответ одобрен и будет отправлен"))
    ensures action == "reject" ==> r == Some(("rejected", "", "Ответ отклонен"))
    ensures action == "edit" ==> r == Some(("pending", editedText, "Ответ отредактирован"))
  {
    if action == "approve" then Some(("approved", "", "Ответ одобрен и будет отправлен"))
    else if action == "reject" then Some(("rejected", "", "Ответ отклонен"))
    else if action == "edit" then Some(("pending", editedText, "Ответ отредактирован"))
    else None
  }

  /**
   * POST `/api/response-action`: approve, reject and edit update the response's status (edit
   * also stores the edited text); any other action leaves `message` unbound and the route fails
   * without touching the store.
   */
  method HandleResponseAction(db: SharedDatabase, now: int, responseId: int, action: string, editedText: string)
    returns (r: Answer<ApiStatus>)
    requires db.Valid()
    modifies db
    ensures db.Valid()
    ensures ActionEffect(action, editedText).None? ==> r == ServerError && db.Tables() == old(db.Tables())
    ensures ActionEffect(action, editedText).Some? ==>
      var (status, edit, message) := ActionEffect(action, editedText).value;
      && db.Tables() == UpdateStatusIn(old(db.Tables()), now, responseId, status, edit)
      && r == Answered(ApiStatus(true, message))
  {
    var effect := ActionEffect(action, editedText);
    if effect.None? {
      return ServerError;
    }
    var (status, edit, message) := effect.value;
    db.UpdateResponseStatus(now, responseId, status, edit);
    r := Answered(ApiStatus(true, message));
  }

  /** Approving and rejecting never change the edited text; editing with a text stores it. */
  lemma ActionEdits(db: Db, now: int, responseId: int, action: string, editedText: string)
    requires ActionEffect(action, editedText).Some?
    ensures var (status, edit, _) := ActionEffect(action, editedText).value;
      var r := UpdateStatusIn(db, now, responseId, status, edit);
      forall i :: 0 <= i < |db.pending| && db.pending[i].id == responseId ==>
        && r.pending[i].status == status
        && (action != "edit" || editedText == [] ==> r.pending[i].editedResponse == db.pending[i].editedResponse)
        && (action == "edit" && editedText != [] ==> r.pending[i].editedResponse == Some(editedText))
  {
  }
}
