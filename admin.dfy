// The admin side of bot.py: the inline keyboards attached to an order
// message, the callback data their buttons carry, and how the decision,
// time, custom-time and ready handlers rewrite the message and notify the
// customer.
//
// Message texts are held as Telegram returns them in `message.text`: the
// plain rendering, without the <b> tags the bot sends. Texts sent to a chat
// are kept as the literal HTML the bot passes.
module Admin {
  import opened Text

  datatype Keyboard = NoKeyboard | DecisionKb(userId: string) | TimeKb(userId: string) | ReadyKb(userId: string)

  datatype AdminMessage = AdminMessage(text: string, keyboard: Keyboard)

  /** The bot's conversation state in the admin chat: idle, or waiting for
      the admin to type a time for the order message `orderMsgId`. */
  datatype Session = Idle | AwaitingCustomTime(orderMsgId: nat, clientId: string)

  datatype Recipient = Customer(chatId: string) | AdminChat

  datatype Outgoing = Outgoing(to: Recipient, text: string)

  /** The admin chat as the handlers see it: the order messages by id and
      the conversation state. */
  datatype Desk = Desk(messages: map<nat, AdminMessage>, session: Session)

  datatype Event = Pressed(msgId: nat, data: string) | Typed(text: string)

  datatype Step = Step(desk: Desk, sent: seq<Outgoing>)

  // ---------------------------------------------------------------------------
  // Keyboards and callback data

  /** `prefix_action_user` */
  function CallbackData(prefix: string, action: string, userId: string): string {
    prefix + "_" + action + "_" + userId
  }

  const PresetMinutes: seq<string> := ["5", "10", "15", "20", "30"]

  /** The callback data of each button, in the keyboard's order. */
  function Buttons(kb: Keyboard): seq<string> {
    match kb
    case NoKeyboard => []
    case DecisionKb(u) => [CallbackData("dec", "accept", u), CallbackData("dec", "reject", u)]
    case TimeKb(u) =>
      [CallbackData("time", "5", u), CallbackData("time", "10", u), CallbackData("time", "15", u),
       CallbackData("time", "20", u), CallbackData("time", "30", u),
       CallbackData("time", "custom", u), CallbackData("time", "back", u)]
    case ReadyKb(u) => [CallbackData("order", "ready", u)]
  }

  /** Splitting callback data on '_' gives back its three fields when none
      of them holds a '_'. */
  lemma FieldsOfCallbackData(prefix: string, action: string, userId: string)
    requires '_' !in prefix && '_' !in action && '_' !in userId
    ensures Split(CallbackData(prefix, action, userId), '_') == [prefix, action, userId]
  {
    var rest := action + "_" + userId;
    assert CallbackData(prefix, action, userId) == prefix + ['_'] + rest;
    SplitAfterField(prefix, rest, '_');
    assert rest == action + ['_'] + userId;
    SplitAfterField(action, userId, '_');
    SplitNoSeparator(userId, '_');
  }

  lemma DataStartsWithPrefix(prefix: string, action: string, userId: string)
    ensures StartsWith(CallbackData(prefix, action, userId), prefix + "_")
    ensures StartsWith(CallbackData(prefix, action, userId), prefix + "_" + action + "_")
  {
    var d := CallbackData(prefix, action, userId);
    assert d == (prefix + "_") + (action + "_" + userId);
    assert d == (prefix + "_" + action + "_") + userId;
  }

  /** Every button's data has the customer of its keyboard in its third
      field and reaches the handler of its prefix. */
  lemma ButtonsCarryUser(kb: Keyboard, i: nat)
    requires !kb.NoKeyboard? && '_' !in kb.userId
    requires i < |Buttons(kb)|
    ensures var parts := Split(Buttons(kb)[i], '_');
      |parts| == 3 && parts[2] == kb.userId
    ensures kb.DecisionKb? ==> StartsWith(Buttons(kb)[i], "dec_")
    ensures kb.TimeKb? ==> StartsWith(Buttons(kb)[i], "time_")
    ensures kb.ReadyKb? ==> StartsWith(Buttons(kb)[i], "order_ready_")
  {
    match kb {
      case DecisionKb(u) => DecisionButtons(u, i);
      case TimeKb(u) => TimeButtons(u, i);
      case ReadyKb(u) =>
        FieldsOfCallbackData("order", "ready", u);
        DataStartsWithPrefix("order", "ready", u);
        assert "order" + "_" + "ready" + "_" == "order_ready_";
    }
  }

  lemma DecisionButtons(u: string, i: nat)
    requires '_' !in u && i < 2
    ensures var parts := Split(Buttons(DecisionKb(u))[i], '_');
      |parts| == 3 && parts[2] == u
    ensures StartsWith(Buttons(DecisionKb(u))[i], "dec_")
  {
    var action := if i == 0 then "accept" else "reject";
    assert Buttons(DecisionKb(u))[i] == CallbackData("dec", action, u);
    FieldsOfCallbackData("dec", action, u);
    DataStartsWithPrefix("dec", action, u);
    assert "dec" + "_" == "dec_";
  }

  lemma TimeButtons(u: string, i: nat)
    requires '_' !in u && i < 7
    ensures var parts := Split(Buttons(TimeKb(u))[i], '_');
      |parts| == 3 && parts[2] == u
    ensures StartsWith(Buttons(TimeKb(u))[i], "time_")
  {
    var action := if i < 5 then PresetMinutes[i] else if i == 5 then "custom" else "back";
    assert Buttons(TimeKb(u))[i] == CallbackData("time", action, u);
    assert '_' !in action;
    FieldsOfCallbackData("time", action, u);
    DataStartsWithPrefix("time", action, u);
    assert "time" + "_" == "time_";
  }

  // ---------------------------------------------------------------------------
  // The handlers, one message at a time

  const RejectedLine := "\n\n❌ ОТКЛОНЕН"
  const RejectionNotice := "❌ Заказ отклонен.\nСкоро свяжемся с вами для уточнения."
  const CustomTimePrompt := "✍️ <b>Введите время</b> (например: '40 мин'):"
  const AcceptedMark := "\n\n✅"

  /** The customer's "accepted" message with the time it will take. */
  function ReadyIn(timeVal: string): string {
    "👨‍🍳 Заказ принят!\n⏳ Готовность: <b>" + timeVal + "</b>.\n📞Телефон для связи: +77006437303"
  }

  /** The line a preset time adds to the order message. */
  function AcceptedLine(timeVal: string): string {
    AcceptedMark + " ПРИНЯТ (" + timeVal + ")"
  }

  /** The text after a preset time: whatever came before the first accepted
      line, then the new one. */
  function WithPresetTime(text: string, action: string): string {
    Before(text, AcceptedMark) + AcceptedLine(action + " минут")
  }

  /** `decision_callback`: data fields `dec_action_user`. Data with fewer than
      three fields raises before anything is done. */
  function OnDecision(m: AdminMessage, data: string): (AdminMessage, seq<Outgoing>) {
    var parts := Split(data, '_');
    if |parts| < 3 then (m, [])
    else
      var action := parts[1];
      var userId := parts[2];
      if action == "accept" then (m.(keyboard := TimeKb(userId)), [])
      else if action == "reject" then
        (AdminMessage(m.text + RejectedLine, NoKeyboard), [Outgoing(Customer(userId), RejectionNotice)])
      else (m, [])
  }

  /** `time_callback`: back, custom, or a number of minutes. */
  function OnTime(d: Desk, msgId: nat, data: string): Step
    requires msgId in d.messages
  {
    var m := d.messages[msgId];
    var parts := Split(data, '_');
    if |parts| < 3 then Step(d, [])
    else
      var action := parts[1];
      var userId := parts[2];
      if action == "back" then
        Step(d.(messages := d.messages[msgId := m.(keyboard := DecisionKb(userId))]), [])
      else if action == "custom" then
        Step(d.(session := AwaitingCustomTime(msgId, userId)), [Outgoing(AdminChat, CustomTimePrompt)])
      else
        var m' := AdminMessage(WithPresetTime(m.text, action), ReadyKb(userId));
        Step(d.(messages := d.messages[msgId := m']),
             [Outgoing(Customer(userId), ReadyIn(action + " минут"))])
  }

  /** `custom_time_handler`: the typed text becomes the time. When the order
      message is gone the edit raises and neither message is sent; the state is
      cleared either way. */
  function OnCustomTime(d: Desk, typed: string): Step
    requires d.session.AwaitingCustomTime?
  {
    var id := d.session.orderMsgId;
    var clientId := d.session.clientId;
    if id !in d.messages then Step(Desk(d.messages, Idle), [])
    else
      var m := d.messages[id];
      Step(Desk(d.messages[id := m.(keyboard := ReadyKb(clientId))], Idle),
           [Outgoing(AdminChat, "✅ Время для заказа выше установлено: <b>" + typed + "</b>"),
            Outgoing(Customer(clientId), ReadyIn(typed))])
  }

  const CourierStatus := "🏁 ЗАКАЗ ПЕРЕДАН КУРЬЕРУ"
  const PickupStatus := "🏁 ЗАКАЗ ГОТОВ / ВЫДАН"
  const CourierNotice := "📦 <b>Ваш заказ передан курьеру!</b>\nОжидайте доставку. Приятного аппетита!"
  const PickupNotice := "🎉 <b>Ваш заказ готов!</b>\nЖдем вас на выдаче. Приятного аппетита! ☕️"

  /** `ready_callback`: the accepted line is replaced by the final status, and
      the wording follows whether the order is a delivery. */
  function OnReady(m: AdminMessage, data: string): (AdminMessage, seq<Outgoing>) {
    var parts := Split(data, '_');
    if |parts| < 3 then (m, [])
    else
      var userId := parts[2];
      var isDelivery := Contains(m.text, "Доставка");
      var status := if isDelivery then CourierStatus else PickupStatus;
      var notice := if isDelivery then CourierNotice else PickupNotice;
      var finalText :=
        if Contains(m.text, "ПРИНЯТ") then Trim(Before(m.text, "✅"), IsPySpace) + "\n\n" + status
        else m.text + "\n\n" + status;
      (AdminMessage(finalText, NoKeyboard), [Outgoing(Customer(userId), notice)])
  }

  const Welcome := "Добро пожаловать в CoffeeMoll! 🥐"

  /** aiogram's `CommandStart()` filter: the first word is `/start`, or
      `/start@name` where the name is empty or is the bot's own username,
      compared without regard to case. */
  predicate IsStartCommand(text: string, botName: string) {
    var w := FirstWord(text);
    w == "/start" || (StartsWith(w, "/start@") && (|w| == 7 || Upper(w[7..]) == Upper(botName)))
  }

  /** One update, routed as the dispatcher does, in the order the handlers
      are registered: callbacks by the start of their data; a typed message
      to `cmd_start` when it is a start command, whatever the state, and
      otherwise only while a custom time is awaited. `botName` is the bot's
      username, against which a `/start@name` mention is matched. */
  function React(d: Desk, e: Event, botName: string): Step {
    match e
    case Pressed(id, data) =>
      if id !in d.messages then Step(d, [])
      else if StartsWith(data, "dec_") then
        var (m', sent) := OnDecision(d.messages[id], data);
        Step(d.(messages := d.messages[id := m']), sent)
      else if StartsWith(data, "time_") then OnTime(d, id, data)
      else if StartsWith(data, "order_ready_") then
        var (m', sent) := OnReady(d.messages[id], data);
        Step(d.(messages := d.messages[id := m']), sent)
      else Step(d, [])
    case Typed(text) =>
      if IsStartCommand(text, botName) then Step(d, [Outgoing(AdminChat, Welcome)])
      else if d.session.AwaitingCustomTime? then OnCustomTime(d, text)
      else Step(d, [])
  }

  /** `/start` holds no white space and does not begin with it. */
  lemma StartWord()
    ensures forall i :: 0 <= i < |"/start"| ==> !IsPySpace("/start"[i])
    ensures TrimStart("/start", IsPySpace) == "/start"
  {
  }

  /** A text that begins with `/start` followed by white space or nothing has
      `/start` as its first word. */
  lemma StartThenSpace(rest: string)
    requires rest == [] || IsPySpace(rest[0])
    ensures FirstWord("/start" + rest) == "/start"
  {
    StartWord();
    var t := "/start" + rest;
    assert t[0] == '/';
    assert TrimStart(t, IsPySpace) == t;
    WordPrefixOf("/start", rest);
  }

  /** `/start`, bare or with arguments, is a start command. */
  lemma StartCommandForms(botName: string, args: string)
    ensures IsStartCommand("/start", botName)
    ensures IsStartCommand("/start " + args, botName)
  {
    StartThenSpace([]);
    assert "/start" + [] == "/start";
    StartThenSpace(" " + args);
    assert "/start" + (" " + args) == "/start " + args;
  }

  /** `/start@name` with the bot's own username is a start command. */
  lemma StartMentionsBot(botName: string)
    requires forall i :: 0 <= i < |botName| ==> !IsPySpace(botName[i])
    ensures IsStartCommand("/start@" + botName, botName)
  {
    var w := "/start@" + botName;
    forall i | 0 <= i < |w| ensures !IsPySpace(w[i]) {
      if i >= 7 {
        assert w[i] == botName[i - 7];
      }
    }
    assert TrimStart(w, IsPySpace) == w by { assert w[0] == '/'; }
    WordPrefixOf(w, []);
    assert w + [] == w;
    assert w[..7] == "/start@";
    assert w[7..] == botName;
  }

  /** A typed time, starting with a digit, is never a start command. */
  lemma TimeIsNotCommand(typed: string, botName: string)
    requires typed != [] && '0' <= typed[0] <= '9'
    ensures !IsStartCommand(typed, botName)
  {
    var w := FirstWord(typed);
    assert TrimStart(typed, IsPySpace) == typed;
    assert w != [] ==> w[0] == typed[0];
    assert !StartsWith(w, "/start@") by {
      if |w| >= 7 {
        assert w[..7][0] == typed[0];
      }
    }
  }

  // ---------------------------------------------------------------------------
  // Properties of the flow

  /** "Accept" swaps the decision keyboard for the time keyboard; "back"
      brings the message back as it was. */
  lemma AcceptThenBack(d: Desk, id: nat, u: string, botName: string)
    requires id in d.messages && d.messages[id].keyboard == DecisionKb(u) && '_' !in u
    ensures var s1 := React(d, Pressed(id, CallbackData("dec", "accept", u)), botName);
      && s1.desk.messages == d.messages[id := d.messages[id].(keyboard := TimeKb(u))]
      && s1.desk.session == d.session && s1.sent == []
      && var s2 := React(s1.desk, Pressed(id, CallbackData("time", "back", u)), botName);
         s2.desk == d && s2.sent == []
  {
    FieldsOfCallbackData("dec", "accept", u);
    FieldsOfCallbackData("time", "back", u);
    var s1 := React(d, Pressed(id, CallbackData("dec", "accept", u)), botName);
    assert StartsWith(CallbackData("dec", "accept", u), "dec_");
    assert !StartsWith(CallbackData("time", "back", u), "dec_");
    assert StartsWith(CallbackData("time", "back", u), "time_");
    var s2 := React(s1.desk, Pressed(id, CallbackData("time", "back", u)), botName);
    assert s2.desk.messages == d.messages;
  }

  /** "Reject" appends the rejection line, drops the keyboard and tells the
      customer. */
  lemma RejectOutcome(m: AdminMessage, u: string)
    requires '_' !in u
    ensures OnDecision(m, CallbackData("dec", "reject", u))
      == (AdminMessage(m.text + RejectedLine, NoKeyboard), [Outgoing(Customer(u), RejectionNotice)])
  {
    FieldsOfCallbackData("dec", "reject", u);
  }

  /** The mark "\n\n✅" overlaps no shift of itself. */
  lemma AcceptedMarkBorderless()
    ensures Borderless(AcceptedMark)
  {
    var p := AcceptedMark;
    assert p[1..] != p[..2] by { assert p[1..][1] != p[..2][1]; }
    assert p[2..] != p[..1] by { assert p[2..][0] != p[..1][0]; }
  }

  /** A preset time leaves the order text followed by exactly one accepted
      line; picking another preset replaces that line instead of adding one. */
  lemma PresetNeverStacks(text: string, a: string, b: string)
    ensures Before(WithPresetTime(text, a), AcceptedMark) == Before(text, AcceptedMark)
    ensures WithPresetTime(WithPresetTime(text, a), b) == WithPresetTime(text, b)
    ensures !Contains(Before(text, AcceptedMark), AcceptedMark)
  {
    var clean := Before(text, AcceptedMark);
    BeforeIsFree(text, AcceptedMark);
    AcceptedMarkBorderless();
    var line := AcceptedLine(a + " минут");
    assert StartsWith(line, AcceptedMark) by {
      assert line == AcceptedMark + (" ПРИНЯТ (" + (a + " минут") + ")");
      assert line[..|AcceptedMark|] == AcceptedMark;
    }
    BeforeAppended(clean, line, AcceptedMark);
  }

  /** The time callback with a preset sets the text with a single accepted
      line, attaches the ready keyboard and tells the customer the time. */
  lemma PresetOutcome(d: Desk, id: nat, minutes: string, u: string)
    requires id in d.messages && '_' !in u && '_' !in minutes
    requires minutes != "back" && minutes != "custom"
    ensures var s := OnTime(d, id, CallbackData("time", minutes, u));
      && s.desk.messages == d.messages[id := AdminMessage(WithPresetTime(d.messages[id].text, minutes), ReadyKb(u))]
      && s.desk.session == d.session
      && s.sent == [Outgoing(Customer(u), ReadyIn(minutes + " минут"))]
  {
    FieldsOfCallbackData("time", minutes, u);
  }

  /** Pressing "custom" opens the wait for that order and prompts. */
  lemma PressCustom(d: Desk, id: nat, u: string, botName: string)
    requires id in d.messages && '_' !in u
    ensures React(d, Pressed(id, CallbackData("time", "custom", u)), botName)
      == Step(Desk(d.messages, AwaitingCustomTime(id, u)), [Outgoing(AdminChat, CustomTimePrompt)])
  {
    var data := CallbackData("time", "custom", u);
    FieldsOfCallbackData("time", "custom", u);
    assert !StartsWith(data, "dec_");
    assert StartsWith(data, "time_");
  }

  /** While a custom time is awaited, a message that is not a start command
      is the time. */
  lemma TypedDuringWait(d: Desk, typed: string, botName: string)
    requires d.session.AwaitingCustomTime? && !IsStartCommand(typed, botName)
    ensures React(d, Typed(typed), botName) == OnCustomTime(d, typed)
  {
  }

  /** "Custom" waits for the admin's text; the next message that is not a
      start command attaches the ready keyboard to the order, sends the time
      to both chats and ends the wait. */
  lemma CustomTimeFlow(d: Desk, id: nat, u: string, typed: string, botName: string)
    requires id in d.messages && '_' !in u
    requires !IsStartCommand(typed, botName)
    ensures var s1 := React(d, Pressed(id, CallbackData("time", "custom", u)), botName);
      && s1.desk == Desk(d.messages, AwaitingCustomTime(id, u))
      && s1.sent == [Outgoing(AdminChat, CustomTimePrompt)]
      && var s2 := React(s1.desk, Typed(typed), botName);
         && s2.desk == Desk(d.messages[id := d.messages[id].(keyboard := ReadyKb(u))], Idle)
         && s2.sent == [Outgoing(AdminChat, "✅ Время для заказа выше установлено: <b>" + typed + "</b>"),
                        Outgoing(Customer(u), ReadyIn(typed))]
  {
    PressCustom(d, id, u, botName);
    TypedDuringWait(Desk(d.messages, AwaitingCustomTime(id, u)), typed, botName);
  }

  /** A start command typed while a custom time is awaited only sends the
      welcome: the wait goes on, the order message is untouched, and the
      next typed time still completes the order. */
  lemma StartDuringWait(d: Desk, id: nat, u: string, typed: string, botName: string)
    requires id in d.messages && '_' !in u
    requires !IsStartCommand(typed, botName)
    ensures var s1 := React(d, Pressed(id, CallbackData("time", "custom", u)), botName);
      && var s2 := React(s1.desk, Typed("/start"), botName);
      && s2.desk == s1.desk
      && s2.sent == [Outgoing(AdminChat, Welcome)]
      && var s3 := React(s2.desk, Typed(typed), botName);
         && s3.desk == Desk(d.messages[id := d.messages[id].(keyboard := ReadyKb(u))], Idle)
         && s3.sent == [Outgoing(AdminChat, "✅ Время для заказа выше установлено: <b>" + typed + "</b>"),
                        Outgoing(Customer(u), ReadyIn(typed))]
  {
    CustomTimeFlow(d, id, u, typed, botName);
    StartCommandForms(botName, "");
  }

  /** Outside a wait, a typed message changes nothing; it is answered with
      the welcome exactly when it is a start command. */
  lemma TypedWhileIdle(d: Desk, typed: string, botName: string)
    requires d.session == Idle
    ensures React(d, Typed(typed), botName).desk == d
    ensures IsStartCommand(typed, botName) ==> React(d, Typed(typed), botName).sent == [Outgoing(AdminChat, Welcome)]
    ensures !IsStartCommand(typed, botName) ==> React(d, Typed(typed), botName).sent == []
  {
  }

  /** "Ready" drops the keyboard, picks the courier wording exactly when the
      text mentions delivery, and tells the customer in the same wording. */
  lemma ReadyWording(m: AdminMessage, u: string)
    requires '_' !in u
    ensures var (m', sent) := OnReady(m, CallbackData("order", "ready", u));
      && m'.keyboard == NoKeyboard
      && (Contains(m.text, "Доставка") ==> sent == [Outgoing(Customer(u), CourierNotice)])
      && (!Contains(m.text, "Доставка") ==> sent == [Outgoing(Customer(u), PickupNotice)])
      && (!Contains(m.text, "ПРИНЯТ") ==>
            m'.text == m.text + "\n\n" + (if Contains(m.text, "Доставка") then CourierStatus else PickupStatus))
  {
    FieldsOfCallbackData("order", "ready", u);
  }

  /** After "ready" on an accepted order, no accepted line is left: the text
      keeps what came before the first ✅, trimmed, then the status that
      "Доставка" selects. */
  lemma ReadyDropsAcceptedLine(m: AdminMessage, u: string)
    requires '_' !in u && Contains(m.text, "ПРИНЯТ")
    ensures var (m', _) := OnReady(m, CallbackData("order", "ready", u));
      var clean := Trim(Before(m.text, "✅"), IsPySpace);
      && !Contains(clean, "✅")
      && m'.text == clean + "\n\n" + (if Contains(m.text, "Доставка") then CourierStatus else PickupStatus)
  {
    FieldsOfCallbackData("order", "ready", u);
    BeforeIsFree(m.text, "✅");
    TrimKeepsOut(Before(m.text, "✅"), IsPySpace, "✅");
  }
}
