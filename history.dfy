/**
 * The history scan of the bot (app.py `is_message_in_timeframe`, `scan_history`): the time
 * window, the per-chat loop with its counters and early stop, and the de-duplicated export.
 * A chat's history is the sequence of its messages, newest first, as the client yields them.
 */
module History {
  import opened Wrappers
  import opened Text
  import opened Clock
  import opened Scoring
  import Forwarding

  /** `MIN_LENGTH` and `MAX_MESSAGES_PER_CHAT` when the configuration does not set them. */
  const DefaultMinLength: int := 1
  const DefaultMaxMessagesPerChat: nat := 500
  /** Consecutive out-of-window messages after which a chat's scan stops. */
  const TooOldLimit: nat := 10
  /** Exported text is cut to this many characters. */
  const ExportTextLength: nat := 200

  // ------------------------------------------------------------------
  // Time window
  // ------------------------------------------------------------------

  /** `DATE_FROM`: `hoursBack` hours before start-up in "hours" mode, else `daysBack` days. */
  function DateFrom(startedAt: int, mode: string, hoursBack: int, daysBack: int): (d: int)
    ensures mode == "hours" ==> d == startedAt - hoursBack * SecondsPerHour
    ensures mode != "hours" ==> d == startedAt - daysBack * SecondsPerDay
  {
    if mode == "hours" then startedAt - hoursBack * SecondsPerHour else startedAt - daysBack * SecondsPerDay
  }

  /** A message is in the window iff it is not from the future and not older than `dateFrom`. */
  function InTimeframe(msgTime: int, now: int, dateFrom: int): (b: bool)
    ensures b <==> dateFrom <= msgTime <= now
  {
    if msgTime > now then false else msgTime >= dateFrom
  }

  // ------------------------------------------------------------------
  // Per-chat scan
  // ------------------------------------------------------------------

  /** The fields of a message the scan reads; a message without text has text "". */
  datatype Message = Message(id: int, date: int, senderId: int, text: string)

  /** What the scan needs besides the messages: the clock, the window, the filters. */
  datatype ScanConfig = ScanConfig(now: int, dateFrom: int, minLength: int, keywords: seq<string>)

  /** A message passes when it is in the window, long enough and matches a keyword. */
  predicate Passes(c: ScanConfig, m: Message) {
    InTimeframe(m.date, c.now, c.dateFrom) && |m.text| >= c.minLength && KeywordMatch(c.keywords, m.text)
  }

  /** The loop's counters, the messages it passed (forwarded and exported), and whether it broke off. */
  datatype ScanState = ScanState(checked: nat, inTimeframe: nat, passed: nat, tooOld: nat,
                                 found: seq<Message>, stopped: bool)

  const InitialScan: ScanState := ScanState(0, 0, 0, 0, [], false)

  /** One turn of the loop body; a stopped scan reads no further message. */
  function ScanStep(c: ScanConfig, st: ScanState, m: Message): ScanState {
    if st.stopped then st
    else if !InTimeframe(m.date, c.now, c.dateFrom) then
      var tooOld := st.tooOld + 1;
      st.(checked := st.checked + 1, tooOld := tooOld, stopped := tooOld >= TooOldLimit)
    else
      var st1 := st.(checked := st.checked + 1, tooOld := 0, inTimeframe := st.inTimeframe + 1);
      if |m.text| < c.minLength || !KeywordMatch(c.keywords, m.text) then st1
      else st1.(found := st1.found + [m], passed := st1.passed + 1)
  }

  /** The loop run over `msgs`, as a left fold written from the back. */
  function Scan(c: ScanConfig, msgs: seq<Message>): ScanState
    decreases |msgs|
  {
    if msgs == [] then InitialScan else ScanStep(c, Scan(c, msgs[..|msgs| - 1]), msgs[|msgs| - 1])
  }

  /** The messages one chat yields: at most `limit` of them. */
  function Window(msgs: seq<Message>, limit: nat): (w: seq<Message>)
    ensures |w| <= limit && |w| <= |msgs| && w == msgs[..|w|]
    ensures |msgs| <= limit ==> w == msgs
  {
    if |msgs| <= limit then msgs else msgs[..limit]
  }

  lemma ScanSnoc(c: ScanConfig, msgs: seq<Message>, i: nat)
    requires i < |msgs|
    ensures Scan(c, msgs[..i + 1]) == ScanStep(c, Scan(c, msgs[..i]), msgs[i])
  {
    assert msgs[..i + 1][..i] == msgs[..i];
  }

  /** Once the scan has broken off, later messages change nothing. */
  lemma {:induction false} StoppedStays(c: ScanConfig, msgs: seq<Message>, j: nat, l: nat)
    requires j <= l <= |msgs| && Scan(c, msgs[..j]).stopped
    ensures Scan(c, msgs[..l]) == Scan(c, msgs[..j])
    decreases l - j
  {
    if l > j {
      StoppedStays(c, msgs, j, l - 1);
      ScanSnoc(c, msgs, l - 1);
    }
  }

  /**
   * The loop over one chat: counts every message read, stops after ten consecutive
   * out-of-window messages, and collects the messages that pass (the source forwards each
   * of them at once).
   */
  method ScanChat(c: ScanConfig, msgs: seq<Message>, limit: nat) returns (st: ScanState)
    ensures st == Scan(c, Window(msgs, limit))
  {
    var w := Window(msgs, limit);
    st := InitialScan;
    var i := 0;
    while i < |w|
      invariant i <= |w|
      invariant st == Scan(c, w[..i]) && !st.stopped
    {
      var m := w[i];
      ScanSnoc(c, w, i);
      st := st.(checked := st.checked + 1);
      if !InTimeframe(m.date, c.now, c.dateFrom) {
        st := st.(tooOld := st.tooOld + 1);
        if st.tooOld >= TooOldLimit {
          st := st.(stopped := true);
          StoppedStays(c, w, i + 1, |w|);
          assert w[..|w|] == w;
          return;
        }
        i := i + 1;
        continue;
      } else {
        st := st.(tooOld := 0, inTimeframe := st.inTimeframe + 1);
      }
      var txt := m.text;
      if |txt| < c.minLength {
        i := i + 1;
        continue;
      }
      var hit := KwHit(c.keywords, txt);
      if !hit {
        i := i + 1;
        continue;
      }
      st := st.(found := st.found + [m], passed := st.passed + 1);
      i := i + 1;
    }
    assert w[..|w|] == w;
  }

  // ------------------------------------------------------------------
  // Laws of the scan
  // ------------------------------------------------------------------

  /** The length of the run of out-of-window messages at the end of `msgs`. */
  function OldRun(c: ScanConfig, msgs: seq<Message>): (n: nat)
    ensures n <= |msgs|
    decreases |msgs|
  {
    if msgs == [] || InTimeframe(msgs[|msgs| - 1].date, c.now, c.dateFrom) then 0
    else OldRun(c, msgs[..|msgs| - 1]) + 1
  }

  /** Messages `from .. from + 9` are all outside the window. */
  ghost predicate TenOldAt(c: ScanConfig, msgs: seq<Message>, from: int) {
    0 <= from && from + TooOldLimit <= |msgs|
    && forall i :: from <= i < from + TooOldLimit ==> !InTimeframe(msgs[i].date, c.now, c.dateFrom)
  }

  /** The messages of `msgs` that pass, in order. */
  function PassedOf(c: ScanConfig, msgs: seq<Message>): seq<Message>
    decreases |msgs|
  {
    if msgs == [] then []
    else PassedOf(c, msgs[..|msgs| - 1]) + (if Passes(c, msgs[|msgs| - 1]) then [msgs[|msgs| - 1]] else [])
  }

  /** The in-window messages of `msgs`. */
  function InWindowCount(c: ScanConfig, msgs: seq<Message>): (n: nat)
    ensures n <= |msgs|
    decreases |msgs|
  {
    if msgs == [] then 0
    else InWindowCount(c, msgs[..|msgs| - 1]) + (if InTimeframe(msgs[|msgs| - 1].date, c.now, c.dateFrom) then 1 else 0)
  }

  lemma {:induction false} PassedOfBound(c: ScanConfig, msgs: seq<Message>)
    ensures |PassedOf(c, msgs)| <= InWindowCount(c, msgs)
    decreases |msgs|
  {
    if msgs != [] {
      PassedOfBound(c, msgs[..|msgs| - 1]);
    }
  }

  /**
   * What the counters mean: exactly the first `checked` messages were read (all of them
   * unless the scan broke off); `found` are the passing ones among them and `inTimeframe`
   * counts the in-window ones.
   */
  lemma {:induction false} ScanCounts(c: ScanConfig, msgs: seq<Message>)
    ensures var st := Scan(c, msgs);
      && st.checked <= |msgs|
      && (!st.stopped ==> st.checked == |msgs|)
      && st.found == PassedOf(c, msgs[..st.checked])
      && st.passed == |st.found|
      && st.inTimeframe == InWindowCount(c, msgs[..st.checked])
    decreases |msgs|
  {
    if msgs != [] {
      var init := msgs[..|msgs| - 1];
      var m := msgs[|msgs| - 1];
      ScanCounts(c, init);
      var st0 := Scan(c, init);
      if st0.stopped {
        assert msgs[..st0.checked] == init[..st0.checked];
      } else {
        assert init[..st0.checked] == init;
        assert msgs[..|msgs|] == msgs;
        assert msgs[..|msgs|][..|msgs| - 1] == init;
        if Passes(c, m) {
          assert PassedOf(c, msgs) == PassedOf(c, init) + [m];
        } else {
          assert PassedOf(c, msgs) == PassedOf(c, init) + [];
        }
      }
    }
  }

  /**
   * What `tooOld` means: while the scan runs it is the current run of old messages, below
   * ten; once the scan has stopped, the ten messages before the stop were all old.
   */
  lemma {:induction false} ScanOldRun(c: ScanConfig, msgs: seq<Message>)
    ensures var st := Scan(c, msgs);
      && (!st.stopped ==> st.tooOld == OldRun(c, msgs) && st.tooOld < TooOldLimit)
      && (st.stopped ==> TooOldLimit <= st.checked && TenOldAt(c, msgs, st.checked - TooOldLimit))
    decreases |msgs|
  {
    if msgs != [] {
      var init := msgs[..|msgs| - 1];
      ScanOldRun(c, init);
      ScanCounts(c, init);
      ScanCounts(c, msgs);
      var st0 := Scan(c, init);
      var st := Scan(c, msgs);
      if st0.stopped {
        var from := st0.checked - TooOldLimit;
        assert forall i :: from <= i < from + TooOldLimit ==> msgs[i] == init[i];
      } else if st.stopped {
        OldRunTail(c, msgs);
      }
    }
  }

  /** The scan stops at the first run of ten old messages: no run ends before the stop. */
  lemma {:induction false} ScanNoEarlierRun(c: ScanConfig, msgs: seq<Message>)
    ensures forall j :: 0 <= j && j + TooOldLimit < Scan(c, msgs).checked ==> !TenOldAt(c, msgs, j)
    decreases |msgs|
  {
    if msgs != [] {
      var init := msgs[..|msgs| - 1];
      ScanNoEarlierRun(c, init);
      ScanCounts(c, init);
      ScanOldRun(c, init);
      var st0 := Scan(c, init);
      var st := Scan(c, msgs);
      forall j | 0 <= j && j + TooOldLimit < st.checked ensures !TenOldAt(c, msgs, j) {
        if j + TooOldLimit < st0.checked {
          assert !TenOldAt(c, init, j);
          assert forall i :: j <= i < j + TooOldLimit ==> msgs[i] == init[i];
        } else {
          RunCovers(c, msgs, j);
        }
      }
    }
  }

  /** The old messages at the end of `msgs` are exactly the last `OldRun` of them. */
  lemma {:induction false} OldRunTail(c: ScanConfig, msgs: seq<Message>)
    ensures forall i :: |msgs| - OldRun(c, msgs) <= i < |msgs| ==> !InTimeframe(msgs[i].date, c.now, c.dateFrom)
    ensures OldRun(c, msgs) < |msgs| ==> InTimeframe(msgs[|msgs| - 1 - OldRun(c, msgs)].date, c.now, c.dateFrom)
    decreases |msgs|
  {
    if msgs != [] && !InTimeframe(msgs[|msgs| - 1].date, c.now, c.dateFrom) {
      var init := msgs[..|msgs| - 1];
      OldRunTail(c, init);
      assert forall i :: 0 <= i < |init| ==> init[i] == msgs[i];
    }
  }

  /** A run of ten that ends at the last message or just before it overlaps the last in-window message. */
  lemma RunCovers(c: ScanConfig, msgs: seq<Message>, j: nat)
    requires msgs != [] && j + TooOldLimit < |msgs|
    requires OldRun(c, msgs[..|msgs| - 1]) < TooOldLimit
    requires j + TooOldLimit >= |msgs| - 1
    ensures !TenOldAt(c, msgs, j)
  {
    var init := msgs[..|msgs| - 1];
    OldRunTail(c, init);
    var r := OldRun(c, init);
    var k := |init| - 1 - r;
    assert j <= k < j + TooOldLimit;
    assert init[k] == msgs[k];
  }

  /** Ten old messages at the end make the final run at least ten long. */
  lemma {:induction false} OldRunAtLeast(c: ScanConfig, msgs: seq<Message>, n: nat)
    requires n <= |msgs|
    requires forall i :: |msgs| - n <= i < |msgs| ==> !InTimeframe(msgs[i].date, c.now, c.dateFrom)
    ensures OldRun(c, msgs) >= n
    decreases n
  {
    if n > 0 {
      var init := msgs[..|msgs| - 1];
      forall i | |init| - (n - 1) <= i < |init| ensures !InTimeframe(init[i].date, c.now, c.dateFrom) {
        assert init[i] == msgs[i];
      }
      OldRunAtLeast(c, init, n - 1);
    }
  }

  /** The counters never disagree: passed ≤ in window ≤ checked ≤ the per-chat limit. */
  lemma CountersOrdered(c: ScanConfig, msgs: seq<Message>, limit: nat)
    ensures var st := Scan(c, Window(msgs, limit));
      st.passed <= st.inTimeframe <= st.checked <= limit
  {
    var w := Window(msgs, limit);
    ScanCounts(c, w);
    PassedOfBound(c, w[..Scan(c, w).checked]);
  }

  /** A chat with no run of ten consecutive old messages is read to the end of its window. */
  lemma ReadToEnd(c: ScanConfig, msgs: seq<Message>)
    requires forall j :: !TenOldAt(c, msgs, j)
    ensures !Scan(c, msgs).stopped && Scan(c, msgs).checked == |msgs|
  {
    ScanCounts(c, msgs);
    ScanOldRun(c, msgs);
  }

  /** At the first run of ten old messages the scan stops, right after its tenth message. */
  lemma StopsAtFirstRun(c: ScanConfig, msgs: seq<Message>, j: nat)
    requires TenOldAt(c, msgs, j)
    requires forall i :: 0 <= i < j ==> !TenOldAt(c, msgs, i)
    ensures Scan(c, msgs).stopped && Scan(c, msgs).checked == j + TooOldLimit
  {
    ScanCounts(c, msgs);
    ScanOldRun(c, msgs);
    ScanNoEarlierRun(c, msgs);
    if j + TooOldLimit == |msgs| {
      OldRunAtLeast(c, msgs, TooOldLimit);
    }
  }

  // ------------------------------------------------------------------
  // Export
  // ------------------------------------------------------------------

  /** One exported record: the chat, its reference, and the message with its text cut to 200. */
  datatype ExportRow = ExportRow(chat: string, chatRef: string, id: int, date: int, senderId: int, text: string)

  function RowOf(title: string, raw: string, m: Message): (r: ExportRow)
    ensures |r.text| <= ExportTextLength && |r.text| <= |m.text| && r.text == m.text[..|r.text|]
  {
    ExportRow(title, raw, m.id, m.date, m.senderId, Take(m.text, ExportTextLength))
  }

  function RowsOf(title: string, raw: string, ms: seq<Message>): (rs: seq<ExportRow>)
    ensures |rs| == |ms|
    ensures forall i :: 0 <= i < |ms| ==> rs[i] == RowOf(title, raw, ms[i])
    decreases |ms|
  {
    if ms == [] then [] else RowsOf(title, raw, ms[..|ms| - 1]) + [RowOf(title, raw, ms[|ms| - 1])]
  }

  /** One line of the chats file, resolved: the title of the chat, or None when it is not a chat or group. */
  datatype ChatInput = ChatInput(raw: string, title: Option<string>, messages: seq<Message>)

  /** Every line of the file, stripped. */
  function StrippedLines(lines: seq<string>): (r: seq<string>)
    ensures |r| == |lines| && forall i :: 0 <= i < |lines| ==> r[i] == Strip(lines[i])
  {
    Map(Strip, lines)
  }

  /** `f` applied to every element. */
  function Map<A, B>(f: A -> B, xs: seq<A>): (r: seq<B>)
    ensures |r| == |xs| && forall i :: 0 <= i < |xs| ==> r[i] == f(xs[i])
  {
    seq(|xs|, i requires 0 <= i < |xs| => f(xs[i]))
  }

  lemma MapAppend<A, B>(f: A -> B, a: seq<A>, b: seq<A>)
    ensures Map(f, a + b) == Map(f, a) + Map(f, b)
  {
    var l, r := Map(f, a + b), Map(f, a) + Map(f, b);
    forall i | 0 <= i < |l| ensures l[i] == r[i] {
      if i < |a| {
        assert (a + b)[i] == a[i];
      } else {
        assert (a + b)[i] == b[i - |a|];
      }
    }
  }

  /** A stripped line is its own stripped text. */
  lemma StrippedLinesFixed(lines: seq<string>)
    ensures forall x :: x in StrippedLines(lines) ==> Strip(x) == x
  {
    forall i | 0 <= i < |lines| ensures Strip(Strip(lines[i])) == Strip(lines[i]) {
      StripIdempotent(lines[i]);
    }
  }

  /** The lines that are not empty, in order. */
  function NonBlank(ls: seq<string>): (r: seq<string>)
    ensures |r| <= |ls|
    ensures forall x :: x in r <==> x in ls && x != ""
    decreases |ls|
  {
    if ls == [] then []
    else
      var rest := NonBlank(ls[1..]);
      assert forall x :: x in ls <==> x == ls[0] || x in ls[1..];
      if ls[0] != "" then [ls[0]] + rest else rest
  }

  /** The filter keeps order and multiplicity: it works line by line. */
  lemma {:induction false} NonBlankAppend(a: seq<string>, b: seq<string>)
    ensures NonBlank(a + b) == NonBlank(a) + NonBlank(b)
    decreases |a|
  {
    if a == [] {
      assert a + b == b;
    } else {
      assert (a + b)[1..] == a[1..] + b;
      NonBlankAppend(a[1..], b);
    }
  }

  /** A single line is kept iff it is not empty. */
  lemma NonBlankOne(x: string)
    ensures NonBlank([x]) == if x == "" then [] else [x]
  {
    assert [x][1..] == [];
  }

  /**
   * The chat lines of the chats file: a line is kept, stripped, iff its stripped text is not
   * empty; every kept line is stripped already.
   */
  function ChatLines(lines: seq<string>): (r: seq<string>)
    ensures |r| <= |lines|
    ensures forall x :: x in r <==> x in StrippedLines(lines) && x != ""
    ensures forall i :: 0 <= i < |r| ==> r[i] != "" && Strip(r[i]) == r[i]
  {
    StrippedLinesFixed(lines);
    var r := NonBlank(StrippedLines(lines));
    assert forall i :: 0 <= i < |r| ==> r[i] in r;
    r
  }

  /** Every line whose stripped text is not blank is kept, stripped. */
  lemma ChatLinesComplete(lines: seq<string>, i: int)
    requires 0 <= i < |lines| && Strip(lines[i]) != ""
    ensures Strip(lines[i]) in ChatLines(lines)
  {
    assert StrippedLines(lines)[i] == Strip(lines[i]);
  }

  lemma StrippedLinesAppend(a: seq<string>, b: seq<string>)
    ensures StrippedLines(a + b) == StrippedLines(a) + StrippedLines(b)
  {
    MapAppend(Strip, a, b);
  }

  /** The chat lines come line by line, in file order: one line gives its stripped text, if any. */
  lemma ChatLinesAppend(a: seq<string>, b: seq<string>, line: string)
    ensures ChatLines(a + b) == ChatLines(a) + ChatLines(b)
    ensures ChatLines([line]) == if Strip(line) == "" then [] else [Strip(line)]
  {
    StrippedLinesAppend(a, b);
    NonBlankAppend(StrippedLines(a), StrippedLines(b));
    var one := StrippedLines([line]);
    assert one == [Strip(line)];
    NonBlankOne(Strip(line));
  }

  /**
   * Each chat line with what resolving it gives: the chat's title (None when it is not a chat
   * or group) and its messages, newest first. The resolution is Telegram's and is a parameter.
   */
  function ResolveChats(raws: seq<string>, resolve: string -> (Option<string>, seq<Message>)): (r: seq<ChatInput>)
    ensures |r| == |raws|
    ensures forall i :: 0 <= i < |raws| ==>
      r[i] == ChatInput(raws[i], resolve(raws[i]).0, resolve(raws[i]).1)
  {
    seq(|raws|, i requires 0 <= i < |raws| => ChatInput(raws[i], resolve(raws[i]).0, resolve(raws[i]).1))
  }

  /** The rows of all chats, chat by chat; chats that did not resolve are skipped. */
  function HistoryRows(c: ScanConfig, chats: seq<ChatInput>, limit: nat): seq<ExportRow>
    decreases |chats|
  {
    if chats == [] then []
    else
      HistoryRows(c, chats[..|chats| - 1], limit) + ChatRows(c, chats[|chats| - 1], limit)
  }

  /** The rows of one chat: none when it did not resolve, else one per message its scan found. */
  function ChatRows(c: ScanConfig, ch: ChatInput, limit: nat): seq<ExportRow> {
    match ch.title
    case None => []
    case Some(title) => RowsOf(title, ch.raw, Scan(c, Window(ch.messages, limit)).found)
  }

  /** `getattr(entity, "title", str(raw))`: the entity's title, or the line itself without one. */
  function EntityTitle(e: Forwarding.Entity, raw: string): string {
    match e
    case Chat(_, title) => title
    case Channel(_, title, _, _, _) => title
    case _ => raw
  }

  /**
   * The resolution `scan_history` performs: `resolve_chat` with the client's lookup, and for an
   * accepted entity its title and the messages `history` yields for it, newest first.
   */
  function TelegramResolve(lookup: Forwarding.ChatRef -> Option<Forwarding.Entity>,
                           history: Forwarding.Entity -> seq<Message>, raw: string): (Option<string>, seq<Message>)
  {
    match Forwarding.ResolveChat(raw, lookup)
    case None => (None, [])
    case Some(e) => (Some(EntityTitle(e, raw)), history(e))
  }

  /**
   * With Telegram's resolution in place, a chat line is scanned iff `resolve_chat` accepts it (a
   * basic chat or a megagroup, never a broadcast channel); an accepted one is scanned under its
   * entity's own title, over that entity's messages, and any other line gives no rows.
   */
  lemma ScansOnlyAccepted(c: ScanConfig, raw: string, lookup: Forwarding.ChatRef -> Option<Forwarding.Entity>,
                          history: Forwarding.Entity -> seq<Message>, limit: nat)
    ensures var resolve := (s: string) => TelegramResolve(lookup, history, s);
      && (resolve(raw).0.Some? <==> Forwarding.ResolveChat(raw, lookup).Some?)
      && (Forwarding.ResolveChat(raw, lookup).None? ==> LineRows(c, raw, resolve, limit) == [])
      && (Forwarding.ResolveChat(raw, lookup).Some? ==>
            var e := Forwarding.ResolveChat(raw, lookup).value;
            Forwarding.Accepted(e) && (e.Chat? || e.Channel?) &&
            resolve(raw) == (Some(e.title), history(e)))
  {
    match Forwarding.ResolveChat(raw, lookup)
    case None =>
    case Some(e) =>
      assert Forwarding.Accepted(e);
  }

  /** The rows of one chat line: none when it does not resolve, else the rows of its scan. */
  function LineRows(c: ScanConfig, raw: string, resolve: string -> (Option<string>, seq<Message>), limit: nat): (r: seq<ExportRow>)
    ensures resolve(raw).0.None? ==> r == []
    ensures resolve(raw).0.Some? ==>
      |r| == |Scan(c, Window(resolve(raw).1, limit)).found| &&
      forall i :: 0 <= i < |r| ==> r[i] == RowOf(resolve(raw).0.value, raw, Scan(c, Window(resolve(raw).1, limit)).found[i])
  {
    ChatRows(c, ChatInput(raw, resolve(raw).0, resolve(raw).1), limit)
  }

  /** `f` applied to each element in turn, the results concatenated. */
  function Flat<A, B>(f: A -> seq<B>, xs: seq<A>): seq<B>
    decreases |xs|
  {
    if xs == [] then [] else Flat(f, xs[..|xs| - 1]) + f(xs[|xs| - 1])
  }

  lemma {:induction false} FlatAppend<A, B>(f: A -> seq<B>, xs: seq<A>, ys: seq<A>)
    ensures Flat(f, xs + ys) == Flat(f, xs) + Flat(f, ys)
    decreases |ys|
  {
    if ys == [] {
      assert xs + ys == xs;
    } else {
      var zs := xs + ys;
      assert zs[..|zs| - 1] == xs + ys[..|ys| - 1];
      assert zs[|zs| - 1] == ys[|ys| - 1];
      FlatAppend(f, xs, ys[..|ys| - 1]);
    }
  }

  lemma {:induction false} HistoryRowsFlat(c: ScanConfig, chats: seq<ChatInput>, limit: nat)
    ensures HistoryRows(c, chats, limit) == Flat(ch => ChatRows(c, ch, limit), chats)
    decreases |chats|
  {
    if chats != [] {
      HistoryRowsFlat(c, chats[..|chats| - 1], limit);
    }
  }

  /** The rows of chats one after the other are the rows of the first ones, then of the rest. */
  lemma HistoryRowsAppend(c: ScanConfig, xs: seq<ChatInput>, ys: seq<ChatInput>, limit: nat)
    ensures HistoryRows(c, xs + ys, limit) == HistoryRows(c, xs, limit) + HistoryRows(c, ys, limit)
  {
    HistoryRowsFlat(c, xs + ys, limit);
    HistoryRowsFlat(c, xs, limit);
    HistoryRowsFlat(c, ys, limit);
    FlatAppend(ch => ChatRows(c, ch, limit), xs, ys);
  }

  /**
   * Scanning resolved chat lines: the rows of `a + b` are those of `a`, then of `b`; a single
   * line gives its `LineRows`, so the rows come line by line, in file order, and a line that
   * does not resolve gives none.
   */
  lemma ResolvedRows(c: ScanConfig, a: seq<string>, b: seq<string>, raw: string,
                     resolve: string -> (Option<string>, seq<Message>), limit: nat)
    ensures HistoryRows(c, ResolveChats(a + b, resolve), limit) ==
      HistoryRows(c, ResolveChats(a, resolve), limit) + HistoryRows(c, ResolveChats(b, resolve), limit)
    ensures HistoryRows(c, ResolveChats([raw], resolve), limit) == LineRows(c, raw, resolve, limit)
  {
    assert ResolveChats(a + b, resolve) == ResolveChats(a, resolve) + ResolveChats(b, resolve);
    HistoryRowsAppend(c, ResolveChats(a, resolve), ResolveChats(b, resolve), limit);
    var one := ResolveChats([raw], resolve);
    assert one[..0] == [];
  }

  function TextsOf(rows: seq<ExportRow>): set<string> {
    set i | 0 <= i < |rows| :: rows[i].text
  }

  lemma TextsSnoc(rows: seq<ExportRow>, x: ExportRow)
    ensures TextsOf(rows + [x]) == TextsOf(rows) + {x.text}
  {
    var r := rows + [x];
    forall t | t in TextsOf(r) ensures t in TextsOf(rows) + {x.text} {
      var i :| 0 <= i < |r| && r[i].text == t;
      if i < |rows| {
        assert rows[i] == r[i];
      }
    }
    forall t | t in TextsOf(rows) + {x.text} ensures t in TextsOf(r) {
      if t == x.text {
        assert r[|rows|].text == t;
      } else {
        var i :| 0 <= i < |rows| && rows[i].text == t;
        assert r[i].text == t;
      }
    }
  }

  /** `drop_duplicates(subset=["text"])`: the first row with each text, in order. */
  function DedupByText(rows: seq<ExportRow>): (r: seq<ExportRow>)
    ensures TextsOf(r) == TextsOf(rows)
    decreases |rows|
  {
    if rows == [] then []
    else
      var init := rows[..|rows| - 1];
      var last := rows[|rows| - 1];
      var d := DedupByText(init);
      assert rows == init + [last];
      TextsSnoc(init, last);
      TextsSnoc(d, last);
      if last.text in TextsOf(init) then d else d + [last]
  }

  /**
   * `drop_duplicates` works row by row in input order: a row is appended after the rows kept
   * so far iff no earlier row has its text.
   */
  lemma DedupSnoc(rows: seq<ExportRow>, x: ExportRow)
    ensures DedupByText(rows + [x]) == DedupByText(rows) + (if x.text in TextsOf(rows) then [] else [x])
  {
    var r := rows + [x];
    assert r[..|r| - 1] == rows;
    assert r[|r| - 1] == x;
  }

  /** No two exported rows share a text. */
  lemma {:induction false} DedupDistinct(rows: seq<ExportRow>)
    ensures forall i, j :: 0 <= i < j < |DedupByText(rows)| ==> DedupByText(rows)[i].text != DedupByText(rows)[j].text
    decreases |rows|
  {
    if rows != [] {
      var init := rows[..|rows| - 1];
      DedupDistinct(init);
      var d := DedupByText(init);
      var last := rows[|rows| - 1];
      if last.text !in TextsOf(init) {
        var r := d + [last];
        assert DedupByText(rows) == r;
        forall i, j | 0 <= i < j < |r| ensures r[i].text != r[j].text {
          if j == |d| {
            assert r[i] == d[i];
            assert d[i].text in TextsOf(d);
          } else {
            assert r[i] == d[i] && r[j] == d[j];
          }
        }
      }
    }
  }

  /** Row `i` is the first row with its text. */
  ghost predicate FirstWithText(rows: seq<ExportRow>, i: int) {
    0 <= i < |rows| && forall j :: 0 <= j < i ==> rows[j].text != rows[i].text
  }

  /** Every exported row is the first row of the input with its text. */
  lemma {:induction false} DedupKeepsFirst(rows: seq<ExportRow>, k: int)
    requires 0 <= k < |DedupByText(rows)|
    ensures exists i :: FirstWithText(rows, i) && rows[i] == DedupByText(rows)[k]
    decreases |rows|
  {
    var init := rows[..|rows| - 1];
    var last := rows[|rows| - 1];
    var d := DedupByText(init);
    var r := DedupByText(rows);
    assert r == if last.text in TextsOf(init) then d else d + [last];
    if k < |d| {
      DedupKeepsFirst(init, k);
      assert r[k] == d[k];
      var i :| FirstWithText(init, i) && init[i] == d[k];
      assert rows[i] == init[i];
      assert forall j :: 0 <= j < i ==> rows[j] == init[j];
      assert FirstWithText(rows, i);
    } else {
      assert last.text !in TextsOf(init) && r[k] == last;
      forall j | 0 <= j < |rows| - 1 ensures rows[j].text != last.text {
        assert rows[j] == init[j];
        assert init[j].text in TextsOf(init);
      }
      assert FirstWithText(rows, |rows| - 1);
    }
  }

  /** The loop of `scan_history`: every resolved chat is scanned in turn, its passing rows collected. */
  method CollectRows(c: ScanConfig, chats: seq<ChatInput>, limit: nat) returns (allMsgs: seq<ExportRow>)
    ensures allMsgs == HistoryRows(c, chats, limit)
  {
    allMsgs := [];
    for n := 0 to |chats|
      invariant allMsgs == HistoryRows(c, chats[..n], limit)
    {
      assert chats[..n + 1][..n] == chats[..n];
      var ch := chats[n];
      if ch.title.None? {
        assert HistoryRows(c, chats[..n + 1], limit) == allMsgs + [];
        continue;
      }
      var st := ScanChat(c, ch.messages, limit);
      allMsgs := allMsgs + RowsOf(ch.title.value, ch.raw, st.found);
    }
    assert chats[..|chats|] == chats;
  }

  /**
   * `scan_history` without its I/O: the non-blank stripped lines of the chats file are
   * resolved, every resolved chat is scanned in turn and the rows of all passing messages are
   * collected; the export is those rows without repeated texts.
   */
  method ScanHistory(c: ScanConfig, lines: seq<string>, resolve: string -> (Option<string>, seq<Message>), limit: nat)
    returns (allMsgs: seq<ExportRow>, exported: seq<ExportRow>)
    ensures allMsgs == HistoryRows(c, ResolveChats(ChatLines(lines), resolve), limit)
    ensures exported == DedupByText(allMsgs)
  {
    allMsgs := CollectRows(c, ResolveChats(ChatLines(lines), resolve), limit);
    exported := DedupByText(allMsgs);
  }
}
