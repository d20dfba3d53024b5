/**
 * The string and dispatch helpers around forwarding a lead (app.py `resolve_chat`,
 * `resolve_forward_target`, `format_target_display`, `forward_with_card`): what the client
 * would be asked to resolve, which entities are accepted, how senders, sources and targets
 * are shown, and the card that accompanies a forwarded message.
 */
module Forwarding {
  import opened Wrappers
  import opened Text
  import opened Scoring
  import opened LeadStore

  /**
   * The Telegram objects the helpers look at. A text attribute that is None or empty is "";
   * `Other` is any object without these attributes.
   */
  datatype Entity =
    | User(id: int, firstName: string, lastName: string, username: string)
    | Chat(id: int, title: string)
    | Channel(id: int, title: string, username: string, broadcast: bool, megagroup: bool)
    | Other

  // ------------------------------------------------------------------
  // Chat references (resolve_chat)
  // ------------------------------------------------------------------

  /** What `resolve_chat` asks the client for; `Malformed` is an `int(raw)` that raises. */
  datatype ChatRef = Invite(url: string) | Name(name: string) | Id(id: int) | Malformed

  const LinkPrefix: string := "https://t.me/"
  const InvitePrefix: string := "https://t.me/+"

  /** `raw.lstrip("-").isdigit()`: digits after any number of leading minus signs. */
  predicate LooksNumeric(raw: string) {
    IsDigitString(TrimLeading(raw, '-'))
  }

  /** The branches of `resolve_chat` on the reference text, in their order. */
  function ClassifyChatRef(raw: string): (r: ChatRef)
    ensures r.Invite? <==> StartsWith(raw, LinkPrefix) && Contains(raw, "/+")
  {
    if StartsWith(raw, LinkPrefix) then
      if Contains(raw, "/+") then Invite(InvitePrefix + SplitFirst(Partition(raw, "/+").1, "/+"))
      else Name(SplitLast(raw, "/"))
    else if StartsWith(raw, "@") then Name(raw)
    else if LooksNumeric(raw) then
      match ParseInt(raw)
      case Some(n) => Id(n)
      case None => Malformed
    else Name(raw)
  }

  /** Only a numeric-looking reference that `int(...)` rejects is malformed. */
  lemma MalformedIff(raw: string)
    ensures ClassifyChatRef(raw).Malformed? <==>
      !StartsWith(raw, LinkPrefix) && LooksNumeric(raw) && ParseInt(raw).None?
  {
    if !StartsWith(raw, LinkPrefix) && StartsWith(raw, "@") {
      assert raw[0] == '@';
      assert TrimLeading(raw, '-') == raw;
    }
  }

  /**
   * An invite link asks for `https://t.me/+<hash>`, the hash being the text that follows
   * the first "/+" of the reference, up to the next "/+".
   */
  lemma InviteLink(raw: string)
    requires StartsWith(raw, LinkPrefix) && Contains(raw, "/+")
    ensures var r := ClassifyChatRef(raw);
      && r.Invite? && StartsWith(r.url, InvitePrefix)
      && StartsWith(raw, Partition(raw, "/+").0 + "/+" + r.url[|InvitePrefix|..])
      && !Contains(Partition(raw, "/+").0, "/+")
  {
    var parts := Partition(raw, "/+");
    var hash := SplitFirst(parts.1, "/+");
    InviteUrl(hash);
    PrefixAfter(parts.0, "/+", parts.1, hash);
  }

  lemma InviteUrl(hash: string)
    ensures StartsWith(InvitePrefix + hash, InvitePrefix) && (InvitePrefix + hash)[|InvitePrefix|..] == hash
  {
    assert (InvitePrefix + hash)[..|InvitePrefix|] == InvitePrefix;
  }

  lemma PrefixAfter(pre: string, sep: string, rest: string, h: string)
    requires |h| <= |rest| && h == rest[..|h|]
    ensures StartsWith(pre + sep + rest, pre + sep + h)
  {
    assert (pre + sep + rest)[..|pre + sep + h|] == pre + sep + h;
  }

  /** Any other link is asked for by its last path segment, which holds no "/". */
  lemma PublicLink(raw: string)
    requires StartsWith(raw, LinkPrefix) && !Contains(raw, "/+")
    ensures var r := ClassifyChatRef(raw); r.Name? && r.name == SplitLast(raw, "/") && !Contains(r.name, "/")
  {
  }

  /** A character of `s` other than its first keeps `s` from starting with `p`. */
  lemma NotPrefix(s: string, p: string)
    requires s != [] && p != [] && s[0] != p[0]
    ensures !StartsWith(s, p)
  {
    assert |p| <= |s| ==> s[..|p|][0] == s[0];
  }

  /** `str(n)` as a reference is the numeric id `n`. */
  lemma ChatRefIdRoundTrip(n: int)
    ensures ClassifyChatRef(IntToString(n)) == Id(n)
  {
    NumericText(n);
  }

  /** `str(n)` starts with a digit or a minus sign, passes the digit test and parses back to `n`. */
  lemma NumericText(n: int)
    ensures var s := IntToString(n);
      && s != [] && (s[0] == '-' || IsDigit(s[0]))
      && LooksNumeric(s) && ParseInt(s) == Some(n)
      && !StartsWith(s, LinkPrefix) && !StartsWith(s, "@")
  {
    var s := IntToString(n);
    IntToStringRoundTrip(n);
    var m: nat := if n < 0 then -n else n;
    var digits := NatToString(m);
    assert IsDigit(digits[0]);
    assert TrimLeading(digits, '-') == digits;
    if n < 0 {
      assert s == "-" + digits;
      assert s[1..] == digits;
      assert TrimLeading(s, '-') == TrimLeading(digits, '-');
    }
    NotPrefix(s, LinkPrefix);
    NotPrefix(s, "@");
  }

  /** A public link names its last path segment. */
  lemma PublicLinkName(name: string)
    requires '/' !in name && '+' !in name
    ensures ClassifyChatRef(LinkPrefix + name) == Name(name)
  {
    var raw := LinkPrefix + name;
    var head := "https:/" + ['/'] + "t.me";
    assert raw == head + ['/'] + name;
    SplitLastAfter(head, name, '/');
    assert StartsWith(raw, LinkPrefix) by {
      assert raw[..|LinkPrefix|] == LinkPrefix;
    }
    NotPlusLink(name);
  }

  /** A link whose tail has no "+" contains no "/+". */
  lemma NotPlusLink(name: string)
    requires '+' !in name
    ensures !Contains(LinkPrefix + name, "/+")
  {
    var raw := LinkPrefix + name;
    assert '+' !in LinkPrefix;
    forall k | 0 <= k < |raw| ensures raw[k] != '+' {
      if k < |LinkPrefix| {
        assert raw[k] == LinkPrefix[k];
      } else {
        assert raw[k] == name[k - |LinkPrefix|];
      }
    }
    NotContainsByChar(raw, "/+", '+');
  }

  /** The entities `resolve_chat` keeps: basic chats and megagroups, never broadcast channels. */
  predicate Accepted(e: Entity) {
    match e
    case Channel(_, _, _, broadcast, megagroup) => !broadcast && megagroup
    case Chat(_, _) => true
    case _ => false
  }

  /**
   * `resolve_chat` with the client's `get_entity` as `lookup` (None where it raises): the
   * entity when it is accepted, else None.
   */
  function ResolveChat(raw: string, lookup: ChatRef -> Option<Entity>): (r: Option<Entity>)
    ensures r.Some? <==> !ClassifyChatRef(raw).Malformed? && lookup(ClassifyChatRef(raw)).Some?
                         && Accepted(lookup(ClassifyChatRef(raw)).value)
    ensures r.Some? ==> r == lookup(ClassifyChatRef(raw)) && Accepted(r.value)
    ensures r.Some? && r.value.Channel? ==> !r.value.broadcast
  {
    var ref := ClassifyChatRef(raw);
    if ref.Malformed? then None
    else
      match lookup(ref)
      case None => None
      case Some(e) => if Accepted(e) then Some(e) else None
  }

  // ------------------------------------------------------------------
  // Forward target (resolve_forward_target, format_target_display)
  // ------------------------------------------------------------------

  /** The target setting after `"env"` is replaced by the environment's `FORWARD_TO` (or "me"). */
  function TargetSetting(cfg: string, env: string): string {
    if Lower(cfg) == "env" then (if env == [] then "me" else env) else cfg
  }

  /** What `resolve_forward_target` asks the client for. */
  datatype TargetRef = SavedMessages | TargetId(id: int) | TargetName(name: string)

  /** The target reference; an `int(...)` that raises falls back to saved messages. */
  function ForwardTargetRef(cfg: string, env: string): (r: TargetRef)
    ensures Lower(TargetSetting(cfg, env)) == "me" ==> r == SavedMessages
    ensures r.TargetName? ==> r.name == TargetSetting(cfg, env) && !LooksNumeric(r.name)
    ensures r.TargetId? ==> ParseInt(TargetSetting(cfg, env)) == Some(r.id)
  {
    var target := TargetSetting(cfg, env);
    if Lower(target) == "me" then SavedMessages
    else if LooksNumeric(target) then
      match ParseInt(target)
      case Some(n) => TargetId(n)
      case None => SavedMessages
    else TargetName(target)
  }

  /** The lower-cased text of a number is neither "me" nor "env". */
  lemma NumberIsNotAWord(n: int)
    ensures Lower(IntToString(n)) != "me" && Lower(IntToString(n)) != "env"
  {
    NumericText(n);
    var s := IntToString(n);
    var c := s[0];
    assert LowerChar(c) == c;
    assert Lower(s)[0] == c;
    assert "me"[0] == 'm' && "env"[0] == 'e';
  }

  lemma LowerEnv()
    ensures Lower("env") == "env" && Lower("me") == "me"
  {
    assert Lower("env")[0] == 'e' && Lower("env")[1] == 'n' && Lower("env")[2] == 'v';
    assert Lower("me")[0] == 'm' && Lower("me")[1] == 'e';
  }

  /** A numeric setting (directly or through the environment) targets that id. */
  lemma NumericTarget(n: int, env: string)
    ensures ForwardTargetRef(IntToString(n), env) == TargetId(n)
    ensures ForwardTargetRef("env", IntToString(n)) == TargetId(n)
  {
    NumberIsNotAWord(n);
    NumericText(n);
    LowerEnv();
    assert TargetSetting("env", IntToString(n)) == IntToString(n);
    assert TargetSetting(IntToString(n), env) == IntToString(n);
  }

  /** "env" with no `FORWARD_TO` value, and "me" in any case, mean saved messages. */
  lemma SavedMessagesDefaults(cfg: string, env: string)
    ensures ForwardTargetRef("env", "") == SavedMessages
    ensures Lower(cfg) == "me" ==> ForwardTargetRef(cfg, env) == SavedMessages
  {
    LowerEnv();
    assert TargetSetting("env", "") == "me";
    if Lower(cfg) == "me" {
      assert TargetSetting(cfg, env) == cfg;
    }
  }

  /** Two leading minus signs pass the digit test but not `int(...)`, so saved messages are used. */
  lemma DoubleMinusTarget(env: string)
    ensures ForwardTargetRef("--5", env) == SavedMessages
  {
    var t := "--5";
    DoubleMinusText();
    assert TargetSetting(t, env) == t;
  }

  lemma DoubleMinusText()
    ensures Lower("--5") == "--5"
    ensures LooksNumeric("--5") && ParseInt("--5").None?
  {
    DoubleMinusLower();
    DoubleMinusNumeric();
    DoubleMinusNotInt();
  }

  lemma DoubleMinusLower()
    ensures Lower("--5") == "--5"
  {
    MinusAndDigitsLower("--5");
  }

  lemma DoubleMinusNumeric()
    ensures LooksNumeric("--5")
  {
    assert "--5" == "--" + "5";
    TrimLeadingRun("--", "5", '-');
    assert IsDigitString("5");
  }

  lemma DoubleMinusNotInt()
    ensures ParseInt("--5").None?
  {
    TwoSignsNotInt("--5");
  }

  /** Lower-casing leaves minus signs and digits alone. */
  lemma MinusAndDigitsLower(s: string)
    requires forall i :: 0 <= i < |s| ==> s[i] == '-' || IsDigit(s[i])
    ensures Lower(s) == s
  {
  }

  /** `lstrip(c)` removes exactly a leading run of `c`. */
  lemma {:induction false} TrimLeadingRun(a: string, b: string, c: char)
    requires forall i :: 0 <= i < |a| ==> a[i] == c
    requires b == [] || b[0] != c
    ensures TrimLeading(a + b, c) == b
    decreases |a|
  {
    if a != [] {
      assert (a + b)[1..] == a[1..] + b;
      TrimLeadingRun(a[1..], b, c);
    } else {
      assert a + b == b;
    }
  }

  /** A sign followed by another sign is no integer for `int(...)`. */
  lemma TwoSignsNotInt(t: string)
    requires |t| >= 2 && t[0] == '-' && t[1] == '-' && !IsSpace(t[|t| - 1])
    ensures ParseInt(t).None?
  {
    StripNoEdgeSpace(t);
    assert t[1..][0] == '-';
  }

  /** The resolved target: saved messages, or an entity. */
  datatype Target = Me | Resolved(entity: Entity)

  /** `resolve_forward_target` with the client's `get_entity` as `lookup` (None where it raises). */
  function ResolveForwardTarget(cfg: string, env: string, lookup: TargetRef -> Option<Entity>): (t: Target)
    ensures ForwardTargetRef(cfg, env) == SavedMessages ==> t == Me
    ensures t.Resolved? ==> lookup(ForwardTargetRef(cfg, env)) == Some(t.entity)
    ensures t.Me? ==> ForwardTargetRef(cfg, env) == SavedMessages || lookup(ForwardTargetRef(cfg, env)).None?
  {
    var ref := ForwardTargetRef(cfg, env);
    if ref == SavedMessages then Me
    else
      match lookup(ref)
      case None => Me
      case Some(e) => Resolved(e)
  }

  /** The name part of a user's display: first and last name, whichever are set. */
  function UserName(first: string, last: string): (r: string)
    ensures r != []
  {
    var parts := (if first != [] then [first] else []) + (if last != [] then [last] else []);
    if parts == [] then "Пользователь" else Join(parts, " ")
  }

  /** `format_target_display`. */
  function FormatTargetDisplay(t: Target): (r: string)
    ensures t.Me? ==> r == "Сохраненные сообщения"
    ensures t.Resolved? && t.entity.User? && t.entity.username != [] ==>
      r == UserName(t.entity.firstName, t.entity.lastName) + " (@" + t.entity.username + ")"
    ensures t.Resolved? && t.entity.User? && t.entity.username == [] ==>
      r == UserName(t.entity.firstName, t.entity.lastName) + " (ID: " + IntToString(t.entity.id) + ")"
    ensures t.Resolved? && (t.entity.Chat? || t.entity.Channel?) ==> r == "Чат: " + t.entity.title
    ensures t.Resolved? && t.entity.Other? ==> r == "Неизвестная цель"
  {
    match t
    case Me => "Сохраненные сообщения"
    case Resolved(e) =>
      match e
      case User(id, first, last, username) =>
        var name := UserName(first, last);
        if username != [] then name + " (@" + username + ")" else name + " (ID: " + IntToString(id) + ")"
      case Chat(_, title) => "Чат: " + title
      case Channel(_, title, _, _, _) => "Чат: " + title
      case Other => "Неизвестная цель"
  }

  /** Users are shown with both names, space-separated, when both are set. */
  lemma UserNameBoth(first: string, last: string)
    requires first != [] && last != []
    ensures UserName(first, last) == first + " " + last
  {
    var parts := [first] + [last];
    assert UserName(first, last) == Join(parts, " ");
    assert parts[1..] == [last];
    assert Join(parts, " ") == first + " " + Join([last], " ");
  }

  // ------------------------------------------------------------------
  // Sender, source and link (forward_with_card)
  // ------------------------------------------------------------------

  /** How a sender is shown: the plain display and the clickable form on the card. */
  datatype Author = Author(display: string, clickable: Option<string>)

  /** `" ".join([first_name, last_name]).strip()`. */
  function FullName(first: string, last: string): (r: string)
    ensures r == [] || (!IsSpace(r[0]) && !IsSpace(r[|r| - 1]))
  {
    Trimmed(first + " " + last)
  }

  /** `s.strip()`, with what it promises about the ends of the result. */
  function Trimmed(s: string): (r: string)
    ensures r == Strip(s)
    ensures r == [] || (!IsSpace(r[0]) && !IsSpace(r[|r| - 1]))
  {
    StripIsSlice(s);
    Strip(s)
  }

  /** The mention link `[text](tg://user?id=<id>)`. */
  function Mention(text: string, id: int): string {
    "[" + text + "](tg://user?id=" + IntToString(id) + ")"
  }

  /** The sender display rules: username, then full name, then the id; non-users are "unknown". */
  function SenderDisplay(sender: Entity): (a: Author)
    ensures a.display != []
    ensures a.clickable.Some? <==> sender.User?
    ensures sender.User? && sender.username != [] ==>
      a.display == "@" + sender.username && a.clickable == Some(a.display)
    ensures sender.User? && sender.username == [] && FullName(sender.firstName, sender.lastName) != [] ==>
      a.display == FullName(sender.firstName, sender.lastName) && a.clickable == Some(Mention(a.display, sender.id))
    ensures sender.User? && sender.username == [] && FullName(sender.firstName, sender.lastName) == [] ==>
      a.display == "id:" + IntToString(sender.id) && a.clickable == Some(Mention("Пользователь", sender.id))
    ensures !sender.User? ==> a == Author("unknown", None)
  {
    match sender
    case User(id, first, last, username) =>
      if username != [] then Author("@" + username, Some("@" + username))
      else
        var full := FullName(first, last);
        if full != [] then Author(full, Some(Mention(full, id)))
        else Author("id:" + IntToString(id), Some(Mention("Пользователь", id)))
    case _ => Author("unknown", None)
  }

  /** A nameless user's display carries the id, which reads back from it. */
  lemma SenderIdShown(sender: Entity)
    requires sender.User? && sender.username == [] && FullName(sender.firstName, sender.lastName) == []
    ensures var d := SenderDisplay(sender).display;
      |d| > 3 && d[..3] == "id:" && ParseInt(d[3..]) == Some(sender.id)
  {
    var d := SenderDisplay(sender).display;
    assert d[3..] == IntToString(sender.id);
    IntToStringRoundTrip(sender.id);
    NumericText(sender.id);
  }

  /** A user's full name display has no white space at either end. */
  lemma SenderNameTrimmed(sender: Entity)
    requires sender.User? && sender.username == [] && FullName(sender.firstName, sender.lastName) != []
    ensures var d := SenderDisplay(sender).display; !IsSpace(d[0]) && !IsSpace(d[|d| - 1])
  {
    var full := FullName(sender.firstName, sender.lastName);
    assert SenderDisplay(sender).display == full;
  }

  /** The author shown on the card: the clickable form when there is one. */
  function CardAuthor(a: Author): string {
    if a.clickable.Some? && a.clickable.value != [] then a.clickable.value else a.display
  }

  /** `getattr(entity, "username", None)`: basic chats and other objects have none. */
  function UsernameOf(e: Entity): string {
    match e
    case User(_, _, _, username) => username
    case Channel(_, _, username, _, _) => username
    case _ => []
  }

  /**
   * The `chat_source` saved with a lead: the username without one leading "@", or
   * `chat_<id>`, or "unknown_chat" for an object without an id.
   */
  function ChatSourceOf(e: Entity): (r: string)
    ensures r == [] <==> UsernameOf(e) == "@"
    ensures UsernameOf(e) != [] ==> UsernameOf(e) == r || UsernameOf(e) == "@" + r
    ensures UsernameOf(e) == [] && !e.Other? ==> r == "chat_" + IntToString(e.id)
    ensures e.Other? ==> r == "unknown_chat"
  {
    var username := UsernameOf(e);
    if username != [] then (if username[0] == '@' then username[1..] else username)
    else if e.Other? then "unknown_chat"
    else "chat_" + IntToString(e.id)
  }

  /** A source made from an id is never mistaken for a username: the id reads back from it. */
  lemma ChatSourceId(e: Entity)
    requires UsernameOf(e) == [] && !e.Other?
    ensures var r := ChatSourceOf(e); r[..5] == "chat_" && ParseInt(r[5..]) == Some(e.id)
  {
    var r := ChatSourceOf(e);
    assert r[5..] == IntToString(e.id);
    IntToStringRoundTrip(e.id);
  }

  /** `getattr(src_entity, "title", "chat")`. */
  function ChatTitle(e: Entity): string {
    match e
    case Chat(_, title) => title
    case Channel(_, title, _, _, _) => title
    case _ => "chat"
  }

  /** The message link, for channels with a username only. */
  function MessageLink(e: Entity, messageId: int): (r: Option<string>)
    ensures r.Some? <==> e.Channel? && e.username != []
  {
    if e.Channel? && e.username != [] then Some(LinkPrefix + e.username + "/" + IntToString(messageId))
    else None
  }

  // ------------------------------------------------------------------
  // The card
  // ------------------------------------------------------------------

  const ScheduledStatus: string := "🤖 Together.ai автоответ запланирован"
  const ManualStatus: string := "💬 Ручной ответ"

  /** The card's reply status: scheduled iff auto-replies are enabled and the score is not negative. */
  function AutoReplyStatus(autoReply: bool, score: int): (r: string)
    ensures r == ScheduledStatus <==> autoReply && score >= 0
    ensures r == ScheduledStatus || r == ManualStatus
  {
    if autoReply && score >= 0 then ScheduledStatus else ManualStatus
  }

  /** The card's lines: six fixed ones, then the reasons when there are any, then the link. */
  function CardLines(chatTitle: string, dt: string, author: string, a: Analysis, autoReply: bool,
                     leadId: int, link: Option<string>): (r: seq<string>)
    ensures |r| == 6 + (if a.reasons != [] then 1 else 0) + (if link.Some? then 1 else 0)
    ensures r[0] == "👀 **Найдено в:** \n " + chatTitle
    ensures r[1] == "⏰ **" + dt + "**"
    ensures r[2] == "✏️ **Автор:** \n " + author
    ensures r[3] == "🎯 **Качество:** \n " + a.quality + " (очки: " + IntToString(a.score) + ")"
    ensures r[4] == "🤖 **Статус:** " + AutoReplyStatus(autoReply, a.score)
    ensures r[5] == "🆔 **ID лида:** " + IntToString(leadId)
    ensures a.reasons != [] ==> r[6] == "📊 **Причины:** \n " + Join(a.reasons, ", ")
    ensures link.Some? ==> r[|r| - 1] == "🔗 " + link.value
  {
    var fixed := [
      "👀 **Найдено в:** \n " + chatTitle,
      "⏰ **" + dt + "**",
      "✏️ **Автор:** \n " + author,
      "🎯 **Качество:** \n " + a.quality + " (очки: " + IntToString(a.score) + ")",
      "🤖 **Статус:** " + AutoReplyStatus(autoReply, a.score),
      "🆔 **ID лида:** " + IntToString(leadId)
    ];
    var withReasons := if a.reasons != [] then fixed + ["📊 **Причины:** \n " + Join(a.reasons, ", ")] else fixed;
    if link.Some? then withReasons + ["🔗 " + link.value] else withReasons
  }

  /** The card text: its lines joined by newlines. */
  function CardText(lines: seq<string>): string {
    Join(lines, "\n")
  }

  /** What `forward_with_card` sends and records for one message. */
  datatype Forwarded = Forwarded(target: Target, card: string, leadId: int, replyScheduled: bool)

  /** The fields of an incoming message; `dt` is its formatted date, a missing text is "". */
  datatype Incoming = Incoming(id: int, senderId: int, text: string, dt: string)

  /**
   * Whether the Together.ai client exists: a key is set and `enable_together_ai` is on.
   */
  predicate TogetherClient(apiKey: string, togetherEnabled: bool) {
    apiKey != [] && togetherEnabled
  }

  /**
   * A reply is scheduled iff auto-replies are on and the Together.ai client exists,
   * independent of the score; the card claims one whenever auto-replies are on and the score
   * is not negative. The two agree when the client exists and the score is not negative;
   * without a key, or with `enable_together_ai` off, the card still claims a reply that is
   * never started.
   */
  lemma ScheduledAgreesWithCard(autoReply: bool, apiKey: string, togetherEnabled: bool, score: int)
    ensures TogetherClient(apiKey, togetherEnabled) && score >= 0 ==>
      (AutoReplyStatus(autoReply, score) == ScheduledStatus <==> (autoReply && TogetherClient(apiKey, togetherEnabled)))
    ensures !TogetherClient(apiKey, togetherEnabled) && autoReply && score >= 0 ==>
      AutoReplyStatus(autoReply, score) == ScheduledStatus
    ensures !togetherEnabled ==> !TogetherClient(apiKey, togetherEnabled)
  {
  }

  /** The forwarding configuration with the lazily resolved target (`FORWARD_TARGET`). */
  class Forwarder {
    var target: Option<Target>
    const cfg: string
    const env: string
    const autoReply: bool
    const apiKey: string
    const togetherEnabled: bool

    constructor (cfg: string, env: string, autoReply: bool, apiKey: string, togetherEnabled: bool)
      ensures this.cfg == cfg && this.env == env && this.autoReply == autoReply && this.apiKey == apiKey
      ensures this.togetherEnabled == togetherEnabled
      ensures target.None?
    {
      this.cfg, this.env, this.autoReply, this.apiKey := cfg, env, autoReply, apiKey;
      this.togetherEnabled := togetherEnabled;
      target := None;
    }

    /** The target is resolved on first use and reused afterwards. */
    method EnsureTarget(lookup: TargetRef -> Option<Entity>) returns (t: Target)
      modifies this
      ensures old(target).Some? ==> t == old(target).value
      ensures old(target).None? ==> t == ResolveForwardTarget(cfg, env, lookup)
      ensures target == Some(t)
    {
      if target.None? {
        target := Some(ResolveForwardTarget(cfg, env, lookup));
      }
      t := target.value;
    }

    /**
     * `forward_with_card` without its I/O: resolve the target, score the text, save the lead
     * (when saving fails, `saveOk` is false and the card shows lead id 0) and build the card.
     */
    method ForwardWithCard(db: SharedDatabase, now: int, src: Entity, sender: Entity, msg: Incoming,
                           lookup: TargetRef -> Option<Entity>, saveOk: bool) returns (out: Forwarded)
      requires db.Valid()
      modifies this, db
      ensures db.Valid()
      ensures old(target).Some? ==> out.target == old(target).value
      ensures old(target).None? ==> out.target == ResolveForwardTarget(cfg, env, lookup)
      ensures target == Some(out.target)
      ensures var a := Analyzed(PositiveSignals, NegativeSignals, msg.text);
        var author := SenderDisplay(sender);
        && (saveOk ==>
              (db.Tables(), out.leadId) == AddLeadTo(old(db.Tables()), now, ChatSourceOf(src), msg.senderId,
                                                     author.display, msg.text, a.score, a.quality,
                                                     a.reasons, ChatTitle(src)))
        && (!saveOk ==> out.leadId == 0 && db.Tables() == old(db.Tables()))
        && out.card == CardText(CardLines(ChatTitle(src), msg.dt, CardAuthor(author), a, autoReply,
                                          out.leadId, MessageLink(src, msg.id)))
      ensures out.replyScheduled <==> autoReply && apiKey != [] && togetherEnabled
      ensures saveOk ==> out.leadId > 0
    {
      var t := EnsureTarget(lookup);
      var author := SenderDisplay(sender);
      var a := AnalyzeLeadQuality(msg.text);
      var leadId: int := 0;
      if saveOk {
        var id := db.AddLead(now, ChatSourceOf(src), msg.senderId, author.display, msg.text,
                             a.score, a.quality, a.reasons, ChatTitle(src));
        leadId := id;
      }
      var lines := CardLines(ChatTitle(src), msg.dt, CardAuthor(author), a, autoReply, leadId,
                             MessageLink(src, msg.id));
      out := Forwarded(t, CardText(lines), leadId, autoReply && TogetherClient(apiKey, togetherEnabled));
    }
  }
}
