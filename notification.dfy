/**
 * The warranty and refund reminders of app/services/notification_service.py:
 * which products are due on a given day, the message a user receives, and
 * the counters and skip reasons of one daily run. The e-mail and Telegram
 * senders are parameters that say whether a send succeeded.
 */
module Notification {
  import opened Common
  import opened Dates
  import opened Values

  /** A product row as the reminder job reads it. */
  datatype ProductRow = ProductRow(
    id: Option<int>, title: string, purchaseDate: Option<CalendarDate>,
    refundDeadline: Option<CalendarDate>, warrantyEndDate: Option<CalendarDate>)

  /** `DailyAlertItem` */
  datatype AlertItem = AlertItem(
    productId: int, title: string, purchaseDate: Option<CalendarDate>,
    refundDeadline: Option<CalendarDate>, warrantyEndDate: Option<CalendarDate>)

  /** `DailyAlert` */
  datatype Alert = Alert(userId: nat, email: Option<string>, telegramChatId: Option<string>, items: seq<AlertItem>)

  /** The settings `send_daily_alerts` reads. */
  datatype ChannelSettings = ChannelSettings(
    smtpHost: Option<string>, smtpPort: Option<int>, smtpUsername: Option<string>,
    smtpPassword: Option<string>, smtpFrom: Option<string>, telegramBotToken: Option<string>)

  /** `summary.skipped` */
  datatype Skipped = Skipped(email: bool, telegram: bool, reason: Option<string>)

  /** `DailyAlertsSummary` */
  datatype Summary = Summary(
    date: CalendarDate, processed: nat, emailTargets: nat, telegramTargets: nat,
    emailSent: nat, telegramSent: nat, skipped: Skipped, errors: seq<string>)

  /** `send_email([to], subject, body)` succeeds (true) or raises (false). */
  type EmailSender = (string, string, string) -> bool

  /** `send_telegram_message(chat_id, text)` succeeds or raises. */
  type TelegramSender = (int, string) -> bool

  predicate TruthyText(s: Option<string>) { s.Some? && s.value != [] }

  // ------------------------------------------------------------ _parse_days

  /** An element of the decoded list as Python compares it with an int:
      `True` and `False` are the ints 1 and 0. */
  predicate IsIntLike(v: Value) { v.Int? || v.Bool? }

  function IntOf(v: Value): int
    requires IsIntLike(v)
  {
    if v.Int? then v.i else if v.b then 1 else 0
  }

  /**
   * `_parse_days`: `decoded` is what `json.loads` made of the stored text
   * (None when it raised). Only a list of ints is used; anything else gives
   * the fallback.
   */
  function ParseDays(decoded: Option<Value>, fallback: seq<int>): (days: seq<int>)
    ensures decoded.Some? && decoded.value.List? && (forall k :: 0 <= k < |decoded.value.items| ==> IsIntLike(decoded.value.items[k])) ==>
              |days| == |decoded.value.items| && forall k :: 0 <= k < |days| ==> days[k] == IntOf(decoded.value.items[k])
    ensures !(decoded.Some? && decoded.value.List? && (forall k :: 0 <= k < |decoded.value.items| ==> IsIntLike(decoded.value.items[k]))) ==>
              days == fallback
  {
    if decoded.Some? && decoded.value.List? && forall k :: 0 <= k < |decoded.value.items| ==> IsIntLike(decoded.value.items[k]) then
      var items := decoded.value.items;
      seq(|items|, k requires 0 <= k < |items| => IntOf(items[k]))
    else fallback
  }

  const WarrantyDaysDefault: seq<int> := [30, 7, 3]
  const RefundDaysDefault: seq<int> := [3]

  // --------------------------------------------------------------- _is_due

  /** `_is_due`: the target is exactly one of the given numbers of days
      ahead of today (a negative number means that many days ago). */
  predicate IsDue(target: Option<CalendarDate>, daysBefore: seq<int>, today: CalendarDate)
  {
    target.Some? && DaysBetween(target.value, today) in daysBefore
  }

  /** A date is due exactly on the days it is the given number of days
      ahead: tomorrow for 1, today for 0, never for a missing date. */
  lemma IsDueCalendar(today: CalendarDate, daysBefore: seq<int>)
    requires today != Date(9999, 12, 31)
    ensures IsDue(Some(NextDay(today)), daysBefore, today) <==> 1 in daysBefore
    ensures IsDue(Some(today), daysBefore, today) <==> 0 in daysBefore
    ensures !IsDue(None, daysBefore, today)
  {
    DaysBetweenCalendar(today, today, today);
  }

  /** A product is due when its warranty end or its refund deadline is. */
  predicate ProductDue(p: ProductRow, today: CalendarDate, warrantyDays: seq<int>, refundDays: seq<int>)
  {
    IsDue(p.warrantyEndDate, warrantyDays, today) || IsDue(p.refundDeadline, refundDays, today)
  }

  /** The item for a product: a missing (or zero) id becomes 0. */
  function ItemOf(p: ProductRow): (item: AlertItem)
    ensures item.productId == (if p.id.Some? then p.id.value else 0)
    ensures item.title == p.title && item.refundDeadline == p.refundDeadline && item.warrantyEndDate == p.warrantyEndDate
  {
    AlertItem(if p.id.Some? && p.id.value != 0 then p.id.value else 0, p.title, p.purchaseDate, p.refundDeadline, p.warrantyEndDate)
  }

  /** The items `_collect_due_items` returns, in product order. */
  function DueItems(products: seq<ProductRow>, today: CalendarDate, warrantyDays: seq<int>, refundDays: seq<int>): (items: seq<AlertItem>)
    ensures |items| <= |products|
  {
    if products == [] then []
    else
      var rest := DueItems(products[..|products| - 1], today, warrantyDays, refundDays);
      var p := products[|products| - 1];
      if ProductDue(p, today, warrantyDays, refundDays) then rest + [ItemOf(p)] else rest
  }

  /** `_collect_due_items` */
  method CollectDueItems(products: seq<ProductRow>, today: CalendarDate, warrantyDays: seq<int>, refundDays: seq<int>)
    returns (items: seq<AlertItem>)
    ensures items == DueItems(products, today, warrantyDays, refundDays)
  {
    items := [];
    for i := 0 to |products|
      invariant items == DueItems(products[..i], today, warrantyDays, refundDays)
    {
      assert products[..i + 1][..i] == products[..i];
      var product := products[i];
      var isWarrantyDue := IsDue(product.warrantyEndDate, warrantyDays, today);
      var isRefundDue := IsDue(product.refundDeadline, refundDays, today);
      if !(isWarrantyDue || isRefundDue) {
        continue;
      }
      items := items + [ItemOf(product)];
    }
    assert products[..|products|] == products;
  }

  /** Every due product has its item, and every item comes from a due
      product: the items are the due products, in order. */
  lemma {:induction false} DueItemsExact(products: seq<ProductRow>, today: CalendarDate, warrantyDays: seq<int>, refundDays: seq<int>)
    ensures var items := DueItems(products, today, warrantyDays, refundDays);
            && (forall p :: p in products && ProductDue(p, today, warrantyDays, refundDays) ==> ItemOf(p) in items)
            && (forall it :: it in items ==> exists p :: p in products && ProductDue(p, today, warrantyDays, refundDays) && it == ItemOf(p))
  {
    if products != [] {
      var init := products[..|products| - 1];
      DueItemsExact(init, today, warrantyDays, refundDays);
      assert products == init + [products[|products| - 1]];
      forall p | p in products && ProductDue(p, today, warrantyDays, refundDays)
        ensures ItemOf(p) in DueItems(products, today, warrantyDays, refundDays)
      {
        if p != products[|products| - 1] {
          assert p in init;
        }
      }
      forall it | it in DueItems(products, today, warrantyDays, refundDays)
        ensures exists p :: p in products && ProductDue(p, today, warrantyDays, refundDays) && it == ItemOf(p)
      {
        var rest := DueItems(init, today, warrantyDays, refundDays);
        if it in rest {
          var p :| p in init && ProductDue(p, today, warrantyDays, refundDays) && it == ItemOf(p);
          assert p in products;
        }
      }
    }
  }

  /** `_collect_due_items` keeps one product's item exactly when it is due. */
  lemma DueItemsSingle(p: ProductRow, today: CalendarDate, warrantyDays: seq<int>, refundDays: seq<int>)
    ensures DueItems([p], today, warrantyDays, refundDays) == if ProductDue(p, today, warrantyDays, refundDays) then [ItemOf(p)] else []
  {
    assert [p][..0] == [];
  }

  /** The products are looked at one by one, in order: the items of two
      runs of products are the items of the first followed by those of the
      second. */
  lemma {:induction false} DueItemsConcat(a: seq<ProductRow>, b: seq<ProductRow>, today: CalendarDate, warrantyDays: seq<int>, refundDays: seq<int>)
    ensures DueItems(a + b, today, warrantyDays, refundDays) == DueItems(a, today, warrantyDays, refundDays) + DueItems(b, today, warrantyDays, refundDays)
    decreases |b|
  {
    if b == [] {
      assert a + b == a;
    } else {
      var init := b[..|b| - 1];
      assert (a + b)[..|a + b| - 1] == a + init;
      assert (a + b)[|a + b| - 1] == b[|b| - 1];
      DueItemsConcat(a, init, today, warrantyDays, refundDays);
    }
  }

  /** With no due product there is nothing to send. */
  lemma {:induction false} NoDueProducts(products: seq<ProductRow>, today: CalendarDate, warrantyDays: seq<int>, refundDays: seq<int>)
    requires forall k :: 0 <= k < |products| ==> !ProductDue(products[k], today, warrantyDays, refundDays)
    ensures DueItems(products, today, warrantyDays, refundDays) == []
  {
    if products != [] {
      NoDueProducts(products[..|products| - 1], today, warrantyDays, refundDays);
    }
  }

  // --------------------------------------------------- _format_alert_message

  /** "[ASHD] <date> 알림", the first message line and the e-mail
      subject. */
  function Subject(today: CalendarDate): string
  {
    "[ASHD] " + IsoFormat(today) + " 알림"
  }

  const DueHeading: string := "임박 항목:"

  /** The lines of the message: the heading lines, then one per item. */
  function AlertLines(items: seq<AlertItem>, today: CalendarDate): (lines: seq<string>)
    ensures |lines| == 2 + |items|
    ensures lines[0] == Subject(today) && lines[1] == DueHeading
    ensures forall k :: 0 <= k < |items| ==> lines[2 + k] == "- " + items[k].title
  {
    [Subject(today), DueHeading] + seq(|items|, k requires 0 <= k < |items| => "- " + items[k].title)
  }

  /** `_format_alert_message` */
  method FormatAlertMessage(alert: Alert, today: CalendarDate) returns (message: string)
    ensures message == Join(AlertLines(alert.items, today), "\n")
  {
    var lines := [Subject(today), DueHeading];
    for i := 0 to |alert.items|
      invariant lines == AlertLines(alert.items[..i], today)
    {
      lines := lines + ["- " + alert.items[i].title];
    }
    assert alert.items[..|alert.items|] == alert.items;
    message := Join(lines, "\n");
  }

  /** A message holds 2 + |items| lines, and reading them back gives the
      heading lines and the titles in order, as long as no title holds a line
      feed. */
  lemma MessageLines(items: seq<AlertItem>, today: CalendarDate)
    requires forall k :: 0 <= k < |items| ==> '\n' !in items[k].title
    ensures var lines := SplitOn(Join(AlertLines(items, today), "\n"), '\n');
            && |lines| == 2 + |items|
            && lines[0] == Subject(today) && lines[1] == DueHeading
            && forall k :: 0 <= k < |items| ==> lines[2 + k] == "- " + items[k].title
  {
    var lines := AlertLines(items, today);
    AlertLinesNoNewline(items, today);
    SplitOnJoin(lines, '\n');
  }

  lemma AlertLinesNoNewline(items: seq<AlertItem>, today: CalendarDate)
    requires forall k :: 0 <= k < |items| ==> '\n' !in items[k].title
    ensures forall l :: l in AlertLines(items, today) ==> '\n' !in l
  {
    var lines := AlertLines(items, today);
    forall l | l in lines ensures '\n' !in l {
      var j :| 0 <= j < |lines| && lines[j] == l;
      if j == 0 {
        assert forall m :: 0 <= m < |IsoFormat(today)| ==> IsoFormat(today)[m] != '\n';
      } else if j >= 2 {
        assert l == "- " + items[j - 2].title;
      }
    }
  }

  // ------------------------------------------------------- configuration

  /** `_is_email_configured`: host, port, user name, password and sender
      are all set and non-empty (a port of 0 counts as unset). */
  predicate EmailConfigured(c: ChannelSettings)
  {
    && TruthyText(c.smtpHost) && c.smtpPort.Some? && c.smtpPort.value != 0
    && TruthyText(c.smtpUsername) && TruthyText(c.smtpPassword) && TruthyText(c.smtpFrom)
  }

  /** `_is_telegram_configured` */
  predicate TelegramConfigured(c: ChannelSettings)
  {
    TruthyText(c.telegramBotToken)
  }

  /** Python's `all` over a list of truth values. */
  function AllTrue(xs: seq<bool>): (r: bool)
    ensures r <==> forall k :: 0 <= k < |xs| ==> xs[k]
  {
    if xs == [] then true else xs[0] && AllTrue(xs[1..])
  }

  /** The truth values of the five SMTP settings, in the order
      `_is_email_configured` lists them (an unset value is None; a port is
      falsy when it is 0). */
  function SmtpSettingsTruth(c: ChannelSettings): (r: seq<bool>)
    ensures |r| == 5
  {
    [TruthyText(c.smtpHost), c.smtpPort.Some? && c.smtpPort.value != 0,
     TruthyText(c.smtpUsername), TruthyText(c.smtpPassword), TruthyText(c.smtpFrom)]
  }

  /** E-mail is configured exactly when `all` of the five settings is true. */
  lemma EmailConfiguredAll(c: ChannelSettings)
    ensures EmailConfigured(c) <==> AllTrue(SmtpSettingsTruth(c))
  {
    var xs := SmtpSettingsTruth(c);
    assert EmailConfigured(c) <==> xs[0] && xs[1] && xs[2] && xs[3] && xs[4];
  }

  /** Any one SMTP setting unset or empty (a port of 0) leaves e-mail
      unconfigured, whatever the others are. */
  lemma EmailNeedsEverySetting(c: ChannelSettings)
    ensures !EmailConfigured(c.(smtpHost := None)) && !EmailConfigured(c.(smtpHost := Some("")))
    ensures !EmailConfigured(c.(smtpPort := None)) && !EmailConfigured(c.(smtpPort := Some(0)))
    ensures !EmailConfigured(c.(smtpUsername := None)) && !EmailConfigured(c.(smtpUsername := Some("")))
    ensures !EmailConfigured(c.(smtpPassword := None)) && !EmailConfigured(c.(smtpPassword := Some("")))
    ensures !EmailConfigured(c.(smtpFrom := None)) && !EmailConfigured(c.(smtpFrom := Some("")))
  {
  }

  /** Five non-empty settings and a non-zero port configure e-mail; a
      negative port is truthy too, as in Python. */
  lemma EmailConfiguredWhenSet(c: ChannelSettings, host: string, port: int, user: string, password: string, sender: string)
    requires host != [] && port != 0 && user != [] && password != [] && sender != []
    ensures EmailConfigured(c.(smtpHost := Some(host), smtpPort := Some(port), smtpUsername := Some(user),
                               smtpPassword := Some(password), smtpFrom := Some(sender)))
  {
  }

  /** The two channels are configured independently: the token does not
      affect e-mail and the SMTP settings do not affect Telegram. */
  lemma ChannelsConfiguredIndependently(c: ChannelSettings, d: ChannelSettings)
    ensures c.telegramBotToken == d.telegramBotToken ==> (TelegramConfigured(c) <==> TelegramConfigured(d))
    ensures (c.smtpHost, c.smtpPort, c.smtpUsername, c.smtpPassword, c.smtpFrom)
            == (d.smtpHost, d.smtpPort, d.smtpUsername, d.smtpPassword, d.smtpFrom)
            ==> (EmailConfigured(c) <==> EmailConfigured(d))
  {
  }

  /** Telegram is configured exactly when the token is set and non-empty. */
  lemma TelegramConfiguredIff(c: ChannelSettings)
    ensures TelegramConfigured(c) <==> c.telegramBotToken != None && c.telegramBotToken != Some("")
  {
  }

  // ----------------------------------------------------- send_daily_alerts

  /** The alerts with a truthy e-mail address. */
  function EmailTargets(alerts: seq<Alert>): (n: nat)
    ensures n <= |alerts|
  {
    if alerts == [] then 0
    else EmailTargets(alerts[..|alerts| - 1]) + (if TruthyText(alerts[|alerts| - 1].email) then 1 else 0)
  }

  /** The alerts with a truthy chat id. */
  function TelegramTargets(alerts: seq<Alert>): (n: nat)
    ensures n <= |alerts|
  {
    if alerts == [] then 0
    else TelegramTargets(alerts[..|alerts| - 1]) + (if TruthyText(alerts[|alerts| - 1].telegramChatId) then 1 else 0)
  }

  /** The skip flags and their reason. */
  function SkippedFor(emailTargets: nat, telegramTargets: nat, emailOk: bool, telegramOk: bool): (s: Skipped)
    ensures s.email <==> emailTargets > 0 && !emailOk
    ensures s.telegram <==> telegramTargets > 0 && !telegramOk
    ensures s.reason ==
              if s.email && s.telegram then Some("email_and_telegram_not_configured")
              else if s.email then Some("email_not_configured")
              else if s.telegram then Some("telegram_not_configured")
              else None
  {
    var email := emailTargets > 0 && !emailOk;
    var telegram := telegramTargets > 0 && !telegramOk;
    Skipped(email, telegram,
      if email && telegram then Some("email_and_telegram_not_configured")
      else if email then Some("email_not_configured")
      else if telegram then Some("telegram_not_configured")
      else None)
  }

  /** CPython's default bound on the digits `int()` converts from text
      (`sys.int_info.default_max_str_digits`); beyond it `int()` raises
      ValueError. */
  const IntMaxStrDigits: nat := 4300

  predicate IsSign(c: char) { c == '-' || c == '+' }

  /** Python's `int(text)` on a chat id: optional white space around an
      optional sign and at most IntMaxStrDigits decimal digits; None where
      `int()` raises ValueError. */
  function ParseInt(text: string): (r: Option<int>)
    ensures r.Some? ==> var t := Strip(text); t != []
  {
    ParseUnpadded(Strip(text))
  }

  /** `int()` once the white space is stripped off. */
  function ParseUnpadded(t: string): (r: Option<int>)
    ensures r.Some? ==> t != []
  {
    if t != [] && IsSign(t[0]) then
      (if 1 < |t| <= IntMaxStrDigits + 1 && AllDigits(t[1..]) then Some(if t[0] == '-' then 0 - NatOf(t[1..]) else NatOf(t[1..])) else None)
    else if t != [] && AllDigits(t) && |t| <= IntMaxStrDigits then Some(NatOf(t))
    else None
  }

  /** The texts `int()` accepts: once stripped, a digit or a sign followed
      by digits only, and no more digits than the bound. */
  lemma ParseIntAccepts(text: string)
    ensures var t := Strip(text);
            ParseInt(text).Some? <==>
              && t != []
              && (IsDigit(t[0]) || (|t| > 1 && IsSign(t[0])))
              && (forall k :: 0 < k < |t| ==> IsDigit(t[k]))
              && |DigitsOf(t)| <= IntMaxStrDigits
  {
    ParseUnpaddedAccepts(Strip(text));
  }

  lemma ParseUnpaddedAccepts(t: string)
    ensures ParseUnpadded(t).Some? <==>
              && t != []
              && (IsDigit(t[0]) || (|t| > 1 && IsSign(t[0])))
              && (forall k :: 0 < k < |t| ==> IsDigit(t[k]))
              && |DigitsOf(t)| <= IntMaxStrDigits
  {
    if t != [] && IsSign(t[0]) {
      SignedAccepts(t);
    } else if t != [] && IsDigit(t[0]) && (forall k :: 0 < k < |t| ==> IsDigit(t[k])) {
      assert AllDigits(t);
      AllDigitsOf(t);
    }
  }

  lemma SignedAccepts(t: string)
    requires t != [] && IsSign(t[0])
    ensures AllDigits(t[1..]) <==> (forall k :: 0 < k < |t| ==> IsDigit(t[k]))
    ensures AllDigits(t[1..]) ==> |DigitsOf(t)| == |t| - 1
  {
    assert t == [t[0]] + t[1..];
    DigitsOfAppend([t[0]], t[1..]);
    assert DigitsOf([t[0]]) == [] by { assert [t[0]][1..] == []; }
    if AllDigits(t[1..]) {
      AllDigitsOf(t[1..]);
    } else {
      var k :| 0 <= k < |t[1..]| && !IsDigit(t[1..][k]);
      assert !IsDigit(t[k + 1]);
    }
  }

  /** A text without white space at either end is its own strip. */
  lemma StripUnpadded(s: string)
    requires s != [] && !IsSpace(s[0]) && !IsSpace(s[|s| - 1])
    ensures Strip(s) == s
  {
  }

  /** `int(str(n)) == n` whenever `str(n)` is within the digit bound, and
      `int()` refuses `str(n)` beyond it. */
  lemma ParseIntOfIntToString(n: int)
    ensures var digits := NatToString(if n < 0 then 0 - n else n);
            && (ParseInt(IntToString(n)).Some? <==> |digits| <= IntMaxStrDigits)
            && (|digits| <= IntMaxStrDigits ==> ParseInt(IntToString(n)) == Some(n))
  {
    var m: nat := if n < 0 then 0 - n else n;
    NatOfNatToString(m);
    if n < 0 {
      ParseIntSigned(NatToString(m));
    } else {
      ParseIntDigits(NatToString(m));
    }
  }

  lemma ParseIntDigits(digits: string)
    requires digits != [] && AllDigits(digits)
    ensures ParseInt(digits) == if |digits| <= IntMaxStrDigits then Some(NatOf(digits)) else None
  {
    StripUnpadded(digits);
  }

  lemma ParseIntSigned(digits: string)
    requires digits != [] && AllDigits(digits)
    ensures ParseInt("-" + digits) == if |digits| <= IntMaxStrDigits then Some(0 - NatOf(digits)) else None
  {
    var s := "-" + digits;
    assert s[0] == '-' && s[1..] == digits;
    assert IsDigit(s[|s| - 1]) by { assert s[|s| - 1] == digits[|digits| - 1]; }
    StripUnpadded(s);
    ParseUnpaddedSigned(digits);
  }

  lemma ParseUnpaddedSigned(digits: string)
    requires digits != [] && AllDigits(digits)
    ensures ParseUnpadded("-" + digits) == if |digits| <= IntMaxStrDigits then Some(0 - NatOf(digits)) else None
  {
    var s := "-" + digits;
    assert s[0] == '-' && s[1..] == digits;
  }

  /** The result of one channel's pass: how many sends succeeded, the
      errors, and the sends attempted (recipient and text). */
  datatype Pass<R> = Pass(sent: nat, errors: seq<string>, attempts: seq<(R, string)>)

  /** The e-mail pass over the alerts. */
  function EmailPass(alerts: seq<Alert>, today: CalendarDate, send: EmailSender): (p: Pass<string>)
    ensures p.sent <= EmailTargets(alerts)
  {
    if alerts == [] then Pass(0, [], [])
    else
      var before := EmailPass(alerts[..|alerts| - 1], today, send);
      var alert := alerts[|alerts| - 1];
      if !TruthyText(alert.email) then before
      else
        var body := Join(AlertLines(alert.items, today), "\n");
        var attempts := before.attempts + [(alert.email.value, body)];
        if send(alert.email.value, Subject(today), body) then Pass(before.sent + 1, before.errors, attempts)
        else Pass(before.sent, before.errors + ["email_failed_user_" + NatToString(alert.userId)], attempts)
  }

  /** The Telegram pass over the alerts: a chat id that is not an integer
      is an error and is not sent to. */
  function TelegramPass(alerts: seq<Alert>, today: CalendarDate, send: TelegramSender): (p: Pass<int>)
    ensures p.sent <= TelegramTargets(alerts)
  {
    if alerts == [] then Pass(0, [], [])
    else
      var before := TelegramPass(alerts[..|alerts| - 1], today, send);
      var alert := alerts[|alerts| - 1];
      if !TruthyText(alert.telegramChatId) then before
      else match ParseInt(alert.telegramChatId.value)
        case None => Pass(before.sent, before.errors + ["telegram_invalid_chat_id_user_" + NatToString(alert.userId)], before.attempts)
        case Some(chatId) =>
          var text := Join(AlertLines(alert.items, today), "\n");
          var attempts := before.attempts + [(chatId, text)];
          if send(chatId, text) then Pass(before.sent + 1, before.errors, attempts)
          else Pass(before.sent, before.errors + ["telegram_failed_user_" + NatToString(alert.userId)], attempts)
  }

  /** The summary `send_daily_alerts` returns. */
  function DailySummary(alerts: seq<Alert>, today: CalendarDate, config: ChannelSettings,
                        sendEmail: EmailSender, sendTelegram: TelegramSender): Summary
  {
    var e := if EmailConfigured(config) then EmailPass(alerts, today, sendEmail) else Pass(0, [], []);
    var t := if TelegramConfigured(config) then TelegramPass(alerts, today, sendTelegram) else Pass(0, [], []);
    Summary(today, |alerts|, EmailTargets(alerts), TelegramTargets(alerts), e.sent, t.sent,
            SkippedFor(EmailTargets(alerts), TelegramTargets(alerts), EmailConfigured(config), TelegramConfigured(config)),
            e.errors + t.errors)
  }

  /** The e-mail loop of `send_daily_alerts`. */
  method SendEmails(alerts: seq<Alert>, today: CalendarDate, send: EmailSender) returns (p: Pass<string>)
    ensures p == EmailPass(alerts, today, send)
  {
    p := Pass(0, [], []);
    for i := 0 to |alerts|
      invariant p == EmailPass(alerts[..i], today, send)
    {
      assert alerts[..i + 1][..i] == alerts[..i];
      var alert := alerts[i];
      if !TruthyText(alert.email) {
        continue;
      }
      var subject := Subject(today);
      var body := FormatAlertMessage(alert, today);
      var ok := send(alert.email.value, subject, body);
      p := p.(attempts := p.attempts + [(alert.email.value, body)]);
      if ok {
        p := p.(sent := p.sent + 1);
      } else {
        p := p.(errors := p.errors + ["email_failed_user_" + NatToString(alert.userId)]);
      }
    }
    assert alerts[..|alerts|] == alerts;
  }

  /** The Telegram loop of `send_daily_alerts`. */
  method SendTelegrams(alerts: seq<Alert>, today: CalendarDate, send: TelegramSender) returns (p: Pass<int>)
    ensures p == TelegramPass(alerts, today, send)
  {
    p := Pass(0, [], []);
    for i := 0 to |alerts|
      invariant p == TelegramPass(alerts[..i], today, send)
    {
      assert alerts[..i + 1][..i] == alerts[..i];
      var alert := alerts[i];
      if !TruthyText(alert.telegramChatId) {
        continue;
      }
      var chatId := ParseInt(alert.telegramChatId.value);
      if chatId.None? {
        p := p.(errors := p.errors + ["telegram_invalid_chat_id_user_" + NatToString(alert.userId)]);
        continue;
      }
      var text := FormatAlertMessage(alert, today);
      var ok := send(chatId.value, text);
      p := p.(attempts := p.attempts + [(chatId.value, text)]);
      if ok {
        p := p.(sent := p.sent + 1);
      } else {
        p := p.(errors := p.errors + ["telegram_failed_user_" + NatToString(alert.userId)]);
      }
    }
    assert alerts[..|alerts|] == alerts;
  }

  /** `send_daily_alerts`; the date and the settings are parameters. */
  method SendDailyAlerts(alerts: seq<Alert>, today: CalendarDate, config: ChannelSettings,
                         sendEmail: EmailSender, sendTelegram: TelegramSender)
    returns (summary: Summary)
    ensures summary == DailySummary(alerts, today, config, sendEmail, sendTelegram)
  {
    var emailTargets := EmailTargets(alerts);
    var telegramTargets := TelegramTargets(alerts);
    var emailConfigured := EmailConfigured(config);
    var telegramConfigured := TelegramConfigured(config);
    var skipped := SkippedFor(emailTargets, telegramTargets, emailConfigured, telegramConfigured);
    var e: Pass<string> := Pass(0, [], []);
    if emailConfigured {
      e := SendEmails(alerts, today, sendEmail);
    }
    var t: Pass<int> := Pass(0, [], []);
    if telegramConfigured {
      t := SendTelegrams(alerts, today, sendTelegram);
    }
    summary := Summary(today, |alerts|, emailTargets, telegramTargets, e.sent, t.sent, skipped, e.errors + t.errors);
  }

  // ------------------------------------------------------------ properties

  /** Each e-mail target is either sent or leaves exactly one error, and
      exactly the targets are attempted. */
  lemma {:induction false} EmailPassAccounts(alerts: seq<Alert>, today: CalendarDate, send: EmailSender)
    ensures var p := EmailPass(alerts, today, send);
            p.sent + |p.errors| == EmailTargets(alerts) == |p.attempts|
  {
    if alerts != [] {
      EmailPassAccounts(alerts[..|alerts| - 1], today, send);
    }
  }

  /** Each Telegram target is sent, fails once, or has an invalid chat id
      (one error and no attempt). */
  lemma {:induction false} TelegramPassAccounts(alerts: seq<Alert>, today: CalendarDate, send: TelegramSender)
    ensures var p := TelegramPass(alerts, today, send);
            && p.sent + |p.errors| == TelegramTargets(alerts)
            && |p.attempts| <= TelegramTargets(alerts)
  {
    if alerts != [] {
      TelegramPassAccounts(alerts[..|alerts| - 1], today, send);
    }
  }

  /** Every Telegram send goes to the id a chat id parses to. */
  lemma {:induction false} TelegramAttemptsParsed(alerts: seq<Alert>, today: CalendarDate, send: TelegramSender)
    ensures forall a :: a in TelegramPass(alerts, today, send).attempts ==>
              exists k :: 0 <= k < |alerts| && TruthyText(alerts[k].telegramChatId) && ParseInt(alerts[k].telegramChatId.value) == Some(a.0)
  {
    if alerts != [] {
      var init := alerts[..|alerts| - 1];
      TelegramAttemptsParsed(init, today, send);
      forall a | a in TelegramPass(alerts, today, send).attempts
        ensures exists k :: 0 <= k < |alerts| && TruthyText(alerts[k].telegramChatId) && ParseInt(alerts[k].telegramChatId.value) == Some(a.0)
      {
        TelegramStepAttempts(alerts, today, send);
        if a in TelegramPass(init, today, send).attempts {
          var k :| 0 <= k < |init| && TruthyText(init[k].telegramChatId) && ParseInt(init[k].telegramChatId.value) == Some(a.0);
          assert alerts[k] == init[k];
        } else {
          assert a.0 == ParseInt(alerts[|alerts| - 1].telegramChatId.value).value;
        }
      }
    }
  }

  /** The last alert adds at most one attempt, to the id its chat id parses to. */
  lemma TelegramStepAttempts(alerts: seq<Alert>, today: CalendarDate, send: TelegramSender)
    requires alerts != []
    ensures var last := alerts[|alerts| - 1];
            var before := TelegramPass(alerts[..|alerts| - 1], today, send).attempts;
            var after := TelegramPass(alerts, today, send).attempts;
            forall a :: a in after && a !in before ==>
              TruthyText(last.telegramChatId) && ParseInt(last.telegramChatId.value) == Some(a.0)
  {
  }

  /** The counters of a run: all alerts are processed, nothing is sent on
      an unconfigured channel, sends never exceed targets, and every target
      of a configured channel is sent or leaves one error. */
  lemma SummaryCounters(alerts: seq<Alert>, today: CalendarDate, config: ChannelSettings,
                        sendEmail: EmailSender, sendTelegram: TelegramSender)
    ensures var s := DailySummary(alerts, today, config, sendEmail, sendTelegram);
            && s.processed == |alerts| && s.date == today
            && s.emailSent <= s.emailTargets && s.telegramSent <= s.telegramTargets
            && (!EmailConfigured(config) ==> s.emailSent == 0)
            && (!TelegramConfigured(config) ==> s.telegramSent == 0)
            && s.emailSent + s.telegramSent + |s.errors| ==
                 (if EmailConfigured(config) then s.emailTargets else 0) + (if TelegramConfigured(config) then s.telegramTargets else 0)
  {
    EmailPassAccounts(alerts, today, sendEmail);
    TelegramPassAccounts(alerts, today, sendTelegram);
  }

  /** With nothing configured, every alert that has a target is skipped
      on both channels and nothing is sent. */
  lemma UnconfiguredSkipsBoth(alert: Alert, today: CalendarDate, sendEmail: EmailSender, sendTelegram: TelegramSender)
    requires TruthyText(alert.email) && TruthyText(alert.telegramChatId)
    ensures var none := ChannelSettings(None, None, None, None, None, None);
            var s := DailySummary([alert], today, none, sendEmail, sendTelegram);
            && s.emailSent == 0 && s.telegramSent == 0
            && s.skipped == Skipped(true, true, Some("email_and_telegram_not_configured"))
            && s.errors == []
  {
  }

  /** A configured e-mail channel and a successful send: one target, one
      send, no skip. */
  lemma ConfiguredEmailSends(alert: Alert, today: CalendarDate, config: ChannelSettings,
                             sendEmail: EmailSender, sendTelegram: TelegramSender)
    requires TruthyText(alert.email) && alert.telegramChatId.None? && EmailConfigured(config)
    requires sendEmail(alert.email.value, Subject(today), Join(AlertLines(alert.items, today), "\n"))
    ensures var s := DailySummary([alert], today, config, sendEmail, sendTelegram);
            s.emailTargets == 1 && s.emailSent == 1 && !s.skipped.email && s.errors == []
  {
    assert [alert][..0] == [];
    assert EmailPass([alert], today, sendEmail).errors == [];
    assert TelegramPass([alert], today, sendTelegram) == Pass(0, [], []);
  }

  /** A chat id that is not an integer: one error naming the user, no
      send. */
  lemma InvalidChatId(alert: Alert, today: CalendarDate, send: TelegramSender)
    requires TruthyText(alert.telegramChatId) && ParseInt(alert.telegramChatId.value).None?
    ensures TelegramPass([alert], today, send) ==
              Pass(0, ["telegram_invalid_chat_id_user_" + NatToString(alert.userId)], [])
  {
    assert [alert][..0] == [];
  }
}
