/**
 * How the worker answers one update: `ProcessUpdate` and the handlers it
 * calls, as pure functions of the cached channel catalog and the update.
 * Their only effects in the source are Bot API calls, so each returns the
 * calls it makes, in order, and whether it then throws (a null-forgiving
 * dereference of a reference that is null).
 */
module Bot {
  import opened Wrappers
  import opened Ints
  import opened Decimal
  import opened Text
  import opened Telegram
  import opened Models

  const WelcomeText: string := "Welcome! Use /refer to get your referral link."
  const HelpText: string := "Here are the available commands:\n/start - Start the bot\n/refer - Get your referral link\n/help - Get help with the bot"
  const ReferPrompt: string := "Select a channel to refer your friend to:\n\n"
  const ReferPrefix: string := "refer_to_"
  const InvalidSelectionText: string := "Invalid channel selection."
  const UnknownActionText: string := "Unknown action."
  const ChannelNotFoundText: string := "Channel not found."
  const LinkBase: string := "https://t.me/"
  const LinkStart: string := "?start=ref_"

  /** The Bot API calls one handler makes, in order, and whether it throws after the last of them. */
  datatype Outcome = Outcome(actions: seq<Action>, throws: bool)

  /**
   * Routing: a message is looked at first and only its exact text counts; a
   * callback query is looked at only when there is no message. A message
   * update only ever sends to its own chat; a callback update is always
   * answered, by its first call.
   */
  function ProcessUpdate(channels: seq<Channel>, u: Update): (r: Outcome)
    ensures |r.actions| <= 2
    ensures u.message.Some? ==> |r.actions| <= 1 && (forall i :: 0 <= i < |r.actions| ==>
      r.actions[i].SendMessage? && r.actions[i].chatId == u.message.value.chat.id)
    ensures u.message.None? && u.callbackQuery.Some? ==> AnsweredFirst(r.actions, u.callbackQuery.value.id)
    ensures u.message.None? && u.callbackQuery.None? ==> r == Outcome([], false)
  {
    match u.message
    case Some(m) =>
      if m.text == Some("/start") then
        Outcome([SendMessage(m.chat.id, WelcomeText, None)], false)
      else if m.text == Some("/refer") then
        HandleReferCommand(channels, m)
      else if m.text == Some("/help") then
        Outcome([SendMessage(m.chat.id, HelpText, None)], false)
      else
        Outcome([], false)
    case None =>
      match u.callbackQuery
      case Some(q) => HandleCallbackQuery(channels, q)
      case None => Outcome([], false)
  }

  /**
   * The shape of every reply to a callback query: the query is answered
   * exactly once, by the first call, and at most one message follows.
   */
  predicate AnsweredFirst(actions: seq<Action>, queryId: string) {
    0 < |actions| <= 2 && actions[0].AnswerCallbackQuery? && actions[0].callbackQueryId == queryId &&
    forall i :: 0 < i < |actions| ==> actions[i].SendMessage?
  }

  /** `/refer`: the selection menu, sent to the requesting chat; `message.From!` throws when there is no sender. */
  function HandleReferCommand(channels: seq<Channel>, m: Message): (r: Outcome)
    ensures |r.actions| <= 1 && forall i :: 0 <= i < |r.actions| ==> r.actions[i].SendMessage? && r.actions[i].chatId == m.chat.id
  {
    if m.from.None? then
      Outcome([], true)
    else
      Outcome([SendMessage(m.chat.id, ReferPrompt, Some(ReferMenu(channels)))], false)
  }

  /** The button offered for one channel: its display name, and its id behind the callback prefix. */
  function ReferButton(c: Channel): Button {
    Button(c.displayName, ReferPrefix + FormatInt(c.channelId as int))
  }

  /** The inline keyboard of `/refer`: `channels.Select(c => new[] { ReferButton(c) })`. */
  function ReferMenu(channels: seq<Channel>): seq<seq<Button>> {
    seq(|channels|, i requires 0 <= i < |channels| => [ReferButton(channels[i])])
  }

  /** What callback data asks for. */
  datatype Selection = UnknownAction | InvalidChannel | ReferTo(channelId: int32)

  /**
   * The decoding in `HandleCallbackQuery`: the data must start with the
   * prefix; then every occurrence of the prefix is deleted and the rest must
   * parse as an `int`.
   */
  function DecodeCallbackData(data: Option<string>): Selection {
    if data.Some? && StartsWith(data.value, ReferPrefix) then
      match TryParseInt32(RemoveAll(data.value, ReferPrefix))
      case Some(id) => ReferTo(id)
      case None => InvalidChannel
    else
      UnknownAction
  }

  function HandleCallbackQuery(channels: seq<Channel>, q: CallbackQuery): (r: Outcome)
    ensures AnsweredFirst(r.actions, q.id)
  {
    match DecodeCallbackData(q.data)
    case ReferTo(id) => HandleReferToChannel(channels, q, id)
    case InvalidChannel => Outcome([AnswerCallbackQuery(q.id, InvalidSelectionText, true)], false)
    case UnknownAction => Outcome([AnswerCallbackQuery(q.id, UnknownActionText, true)], false)
  }

  /** `channels.FirstOrDefault(c => c.ChannelId == id)`, as the index of the channel it returns. */
  function FindChannel(channels: seq<Channel>, id: int32): (r: Option<nat>)
    ensures r.None? ==> forall i :: 0 <= i < |channels| ==> channels[i].channelId != id
    ensures r.Some? ==>
      r.value < |channels| && channels[r.value].channelId == id &&
      forall j :: 0 <= j < r.value ==> channels[j].channelId != id
    decreases |channels|
  {
    if channels == [] then None
    else if channels[0].channelId == id then Some(0)
    else match FindChannel(channels[1..], id)
      case None => None
      case Some(k) => Some(k + 1)
  }

  /** The deep link that starts the bot of `telegramChannelId` with the referring user's id. */
  function ReferralLink(telegramChannelId: string, userId: int64): string {
    LinkBase + telegramChannelId + LinkStart + FormatInt(userId as int)
  }

  /**
   * A selected channel id: the first channel with that id gets a confirmation
   * and a message with the link (`callbackQuery.Message!` throws after the
   * confirmation when the button has no message); no such channel gets an alert.
   */
  function HandleReferToChannel(channels: seq<Channel>, q: CallbackQuery, id: int32): (r: Outcome)
    ensures AnsweredFirst(r.actions, q.id)
  {
    match FindChannel(channels, id)
    case Some(i) =>
      var c := channels[i];
      var link := ReferralLink(c.telegramChannelId, q.from.id);
      var answer := AnswerCallbackQuery(q.id, "Referral link generated for " + c.displayName + ".", false);
      (match q.message
       case Some(m) =>
         Outcome([answer, SendMessage(m.chat.id, "Here is your referral link for " + c.displayName + ": " + link, None)], false)
       case None =>
         Outcome([answer], true))
    case None =>
      Outcome([AnswerCallbackQuery(q.id, ChannelNotFoundText, true)], false)
  }

  // Properties of the dispatcher

  /** `/start` and `/help` each send one fixed text to the chat the command came from. */
  lemma StartAndHelpReply(channels: seq<Channel>, u: Update)
    requires u.message.Some? && u.message.value.text in {Some("/start"), Some("/help")}
    ensures ProcessUpdate(channels, u) == Outcome(
      [SendMessage(u.message.value.chat.id, if u.message.value.text == Some("/start") then WelcomeText else HelpText, None)],
      false)
  {
  }

  /** Any other message, including one without text, does nothing. */
  lemma OtherTextIgnored(channels: seq<Channel>, u: Update)
    requires u.message.Some? && u.message.value.text !in {Some("/start"), Some("/refer"), Some("/help")}
    ensures ProcessUpdate(channels, u) == Outcome([], false)
  {
  }

  /** When an update carries both, the callback query is ignored. */
  lemma MessageTakesPrecedence(channels: seq<Channel>, u: Update)
    requires u.message.Some?
    ensures ProcessUpdate(channels, u) == ProcessUpdate(channels, u.(callbackQuery := None))
  {
  }

  /** `/refer` sends the prompt with the whole catalog as a menu to the requesting chat. */
  lemma ReferCommandReply(channels: seq<Channel>, u: Update)
    requires u.message.Some? && u.message.value.text == Some("/refer") && u.message.value.from.Some?
    ensures var r := ProcessUpdate(channels, u);
      !r.throws && |r.actions| == 1 &&
      r.actions[0] == SendMessage(u.message.value.chat.id, ReferPrompt, Some(ReferMenu(channels)))
  {
  }

  /** `/refer` from a message without a sender throws at `message.From!` before anything is sent. */
  lemma ReferWithoutSenderThrows(channels: seq<Channel>, u: Update)
    requires u.message.Some? && u.message.value.text == Some("/refer") && u.message.value.from.None?
    ensures ProcessUpdate(channels, u) == Outcome([], true)
  {
  }

  /** The menu has one row per catalog channel, in catalog order, each holding that channel's single button. */
  lemma ReferMenuRows(channels: seq<Channel>)
    ensures |ReferMenu(channels)| == |channels|
    ensures forall i :: 0 <= i < |channels| ==>
      ReferMenu(channels)[i] == [Button(channels[i].displayName, ReferPrefix + FormatInt(channels[i].channelId as int))]
  {
  }

  /** An update without a message but with a callback query is handled by `HandleCallbackQuery`. */
  lemma CallbackRouted(channels: seq<Channel>, u: Update)
    requires u.message.None? && u.callbackQuery.Some?
    ensures ProcessUpdate(channels, u) == HandleCallbackQuery(channels, u.callbackQuery.value)
  {
  }

  /** Absent data, or data without the prefix, is answered with the "Unknown action." alert and nothing else. */
  lemma UnknownCallback(channels: seq<Channel>, q: CallbackQuery)
    requires q.data.None? || !StartsWith(q.data.value, ReferPrefix)
    ensures HandleCallbackQuery(channels, q) == Outcome([AnswerCallbackQuery(q.id, UnknownActionText, true)], false)
  {
  }

  /** Data whose remainder is not an `int` gets the "Invalid channel selection." alert whatever the catalog holds. */
  lemma InvalidSelectionIgnoresCatalog(channels: seq<Channel>, other: seq<Channel>, q: CallbackQuery)
    requires q.data.Some? && StartsWith(q.data.value, ReferPrefix)
    requires TryParseInt32(RemoveAll(q.data.value, ReferPrefix)).None?
    ensures HandleCallbackQuery(channels, q) == HandleCallbackQuery(other, q)
    ensures HandleCallbackQuery(channels, q) == Outcome([AnswerCallbackQuery(q.id, InvalidSelectionText, true)], false)
  {
  }

  /** A known id: a plain confirmation naming the first matching channel, then its link sent to the button's chat. */
  lemma FoundChannelReply(channels: seq<Channel>, q: CallbackQuery, id: int32, i: nat)
    requires i < |channels| && channels[i].channelId == id
    requires forall j :: 0 <= j < i ==> channels[j].channelId != id
    requires q.message.Some?
    ensures var c := channels[i];
      HandleReferToChannel(channels, q, id) == Outcome([
        AnswerCallbackQuery(q.id, "Referral link generated for " + c.displayName + ".", false),
        SendMessage(q.message.value.chat.id,
          "Here is your referral link for " + c.displayName + ": " + ReferralLink(c.telegramChannelId, q.from.id),
          None)], false)
  {
    var r := FindChannel(channels, id);
    assert r.Some?;
    assert r.value == i;
  }

  /** A known id pressed on a button without a message: the confirmation is sent, then `callbackQuery.Message!` throws. */
  lemma FoundChannelWithoutMessage(channels: seq<Channel>, q: CallbackQuery, id: int32, i: nat)
    requires i < |channels| && channels[i].channelId == id
    requires forall j :: 0 <= j < i ==> channels[j].channelId != id
    requires q.message.None?
    ensures HandleReferToChannel(channels, q, id) ==
      Outcome([AnswerCallbackQuery(q.id, "Referral link generated for " + channels[i].displayName + ".", false)], true)
  {
    var k := FindChannel(channels, id);
    assert k.Some?;
    assert k.value == i;
  }

  /** An unknown id gets the "Channel not found." alert and no message. */
  lemma MissingChannelAlert(channels: seq<Channel>, q: CallbackQuery, id: int32)
    requires forall i :: 0 <= i < |channels| ==> channels[i].channelId != id
    ensures HandleReferToChannel(channels, q, id) == Outcome([AnswerCallbackQuery(q.id, ChannelNotFoundText, true)], false)
  {
  }

  /**
   * Data made of the prefix and a rest in which `r` never occurs: deleting the
   * prefix leaves the rest, and the rest alone decides the selection.
   */
  lemma DecodePrefixed(rest: string)
    requires forall i :: 0 <= i < |rest| ==> rest[i] != 'r'
    ensures DecodeCallbackData(Some(ReferPrefix + rest)) ==
      match TryParseInt32(rest)
      case Some(id) => ReferTo(id)
      case None => InvalidChannel
  {
    var data := ReferPrefix + rest;
    assert StartsWith(data, ReferPrefix) by {
      assert data[..|ReferPrefix|] == ReferPrefix;
    }
    RemoveAllLeading(ReferPrefix, rest);
    RemoveAllAbsent(rest, ReferPrefix);
  }

  /** The data of a channel's button decodes to that channel's id. */
  lemma DecodeReferButton(c: Channel)
    ensures DecodeCallbackData(Some(ReferButton(c).callbackData)) == ReferTo(c.channelId)
  {
    DecodePrefixed(FormatInt(c.channelId as int));
    TryParseInt32OfFormatInt(c.channelId);
  }

  /** A decoded channel id is handed to `HandleReferToChannel`. */
  lemma SelectionDispatched(channels: seq<Channel>, q: CallbackQuery, id: int32)
    requires DecodeCallbackData(q.data) == ReferTo(id)
    ensures HandleCallbackQuery(channels, q) == HandleReferToChannel(channels, q, id)
  {
  }

  /** Pressing the button of a channel, against the same catalog, reaches the first channel with that id. */
  lemma ButtonResolves(channels: seq<Channel>, i: nat, q: CallbackQuery)
    requires i < |channels|
    requires q.data == Some(ReferButton(channels[i]).callbackData)
    ensures HandleCallbackQuery(channels, q) == HandleReferToChannel(channels, q, channels[i].channelId)
    ensures var k := FindChannel(channels, channels[i].channelId);
      k.Some? && k.value <= i && channels[k.value].channelId == channels[i].channelId
  {
    DecodeReferButton(channels[i]);
    SelectionDispatched(channels, q, channels[i].channelId);
  }

  /**
   * Round trip: pressing any button of the `/refer` menu, against the same
   * catalog, reaches the found-channel branch for that button's channel id,
   * and resolves to the first catalog channel with that id.
   */
  lemma MenuButtonResolves(channels: seq<Channel>, i: nat, q: CallbackQuery)
    requires i < |channels|
    requires q.data == Some(ReferMenu(channels)[i][0].callbackData)
    ensures HandleCallbackQuery(channels, q) == HandleReferToChannel(channels, q, channels[i].channelId)
    ensures var k := FindChannel(channels, channels[i].channelId);
      k.Some? && k.value <= i && channels[k.value].channelId == channels[i].channelId
  {
    assert ReferMenu(channels)[i][0] == ReferButton(channels[i]);
    ButtonResolves(channels, i, q);
  }

  /** The user id can be read back from the link, so two users never share a link to the same channel. */
  lemma ReferralLinkUserId(telegramChannelId: string, userId: int64)
    ensures var head := LinkBase + telegramChannelId + LinkStart;
      var link := ReferralLink(telegramChannelId, userId);
      StartsWith(link, head) && ParseSignedDigits(link[|head|..]) == Some(userId as int)
  {
    var head := LinkBase + telegramChannelId + LinkStart;
    var link := ReferralLink(telegramChannelId, userId);
    assert link == head + FormatInt(userId as int);
    assert link[..|head|] == head;
    assert link[|head|..] == FormatInt(userId as int);
    ParseFormatInt(userId as int);
  }

  lemma ReferralLinkInjective(telegramChannelId: string, a: int64, b: int64)
    requires ReferralLink(telegramChannelId, a) == ReferralLink(telegramChannelId, b)
    ensures a == b
  {
    ReferralLinkUserId(telegramChannelId, a);
    ReferralLinkUserId(telegramChannelId, b);
  }

  /** The prefix is deleted wherever it occurs, so a doubled prefix still selects the channel. */
  lemma RepeatedPrefixAccepted(c: Channel)
    ensures DecodeCallbackData(Some(ReferPrefix + ReferButton(c).callbackData)) == ReferTo(c.channelId)
  {
    var data := ReferPrefix + ReferButton(c).callbackData;
    assert data[..|ReferPrefix|] == ReferPrefix;
    RemoveAllLeading(ReferPrefix, ReferButton(c).callbackData);
    DecodeReferButton(c);
    assert ReferButton(c).callbackData[..|ReferPrefix|] == ReferPrefix;
  }

  /**
   * Data such as `refer_to_abc` or `refer_to_12x`: a character that does not
   * occur in the prefix survives the deletion, and when it is not a digit, a
   * sign or white space the selection is invalid; the alert is given before
   * the catalog is consulted.
   */
  lemma ForeignCharacterSelection(channels: seq<Channel>, q: CallbackQuery, k: nat)
    requires q.data.Some? && StartsWith(q.data.value, ReferPrefix)
    requires k < |q.data.value| && q.data.value[k] !in ReferPrefix
    requires var c := q.data.value[k]; !IsDigit(c) && !IsWhiteSpace(c) && c != '-' && c != '+'
    ensures HandleCallbackQuery(channels, q) == Outcome([AnswerCallbackQuery(q.id, InvalidSelectionText, true)], false)
  {
    var data := q.data.value;
    var rest := RemoveAll(data, ReferPrefix);
    RemoveAllKeeps(data, ReferPrefix, k);
    var j :| 0 <= j < |rest| && rest[j] == data[k];
    TryParseInt32RejectsForeign(rest, j);
    InvalidSelectionIgnoresCatalog(channels, channels, q);
  }

  /**
   * A prefix repeated after other text is deleted as well: data such as
   * `refer_to_1refer_to_2` selects the id spelled by what is left, `12`.
   */
  lemma EmbeddedPrefixDeleted(a: string, b: string)
    requires forall i :: 0 <= i < |a| ==> a[i] != 'r'
    requires forall i :: 0 <= i < |b| ==> b[i] != 'r'
    ensures DecodeCallbackData(Some(ReferPrefix + (a + ReferPrefix + b))) ==
      match TryParseInt32(a + b)
      case Some(id) => ReferTo(id)
      case None => InvalidChannel
  {
    var data := ReferPrefix + (a + ReferPrefix + b);
    assert StartsWith(data, ReferPrefix) by {
      assert data[..|ReferPrefix|] == ReferPrefix;
    }
    assert ReferPrefix[0] == 'r';
    RemoveAllBoth(ReferPrefix, a, b);
  }
}
