/** A one-to-one chat (views/ChatView.tsx): the message list, the text
    input with its emoji picker, the plus menu with image, location and route
    sharing, and voice recording. Every send appends one message from the
    current user; the clock's readings are parameters. */
module Chat {
  import opened Types
  import opened Text

  const ME: string := "me_007"

  const EMOJIS: seq<string> :=
    ["😊", "🙌", "🔥", "⛰️", "📸", "✨", "👍", "📍", "🚶", "🌍", "❤️", "😂"]

  const MY_ROUTES: seq<TravelRoute> := [
    TravelRoute("r_shared_1", "洱海环线·极致蓝调", "我", "https://picsum.photos/seed/me/100/100",
                "12km", "1.5h", "20m", 4.9, "https://picsum.photos/seed/erhai/400/250", [], None),
    TravelRoute("r_shared_2", "西湖苏堤雨中漫步", "我", "https://picsum.photos/seed/me/100/100",
                "3.5km", "1h", "5m", 4.7, "https://picsum.photos/seed/xihu/400/250", [], None)
  ]

  /** The screen's state: the messages, the input text, and which panels are open. */
  datatype Chat = Chat(
    messages: seq<ChatMessage>,
    input: string,
    showEmojiPicker: bool,
    showPlusMenu: bool,
    showRoutePicker: bool,
    isRecording: bool)

  function TextFrom(sender: string, id: string, content: string, timestamp: int): ChatMessage {
    ChatMessage(id, sender, TextMessage, Some(content), None, None, None, None, timestamp)
  }

  /** The conversation the screen opens with: a question from the other user
      (the route's user id, or 'other' when it is missing or empty) and my
      answer, an hour and fifty minutes old. */
  function Opened(userId: Option<string>, now: int): (c: Chat)
    ensures |c.messages| == 2 && c.messages[1].senderId == ME
    ensures c.messages[0].senderId == (if userId.Some? && userId.value != "" then userId.value else "other")
    ensures c.input == "" && !c.showEmojiPicker && !c.showPlusMenu && !c.showRoutePicker && !c.isRecording
  {
    var other := if userId.Some? && userId.value != "" then userId.value else "other";
    Chat([TextFrom(other, "1", "嗨！看到你最近在大理的骑行路线很赞，那个机位怎么找？", now - 3600000),
          TextFrom(ME, "2", "谢谢！就在龙龛码头往北走500米的小树林里，下午4点左右光影最好。", now - 3000000)],
         "", false, false, false, false)
  }

  /** A message is drawn on my side exactly when I sent it. */
  predicate IsMe(m: ChatMessage) {
    m.senderId == ME
  }

  /** The send button replaces the mic button while the input has non-blank text. */
  predicate ShowsSendButton(c: Chat) {
    Trim(c.input) != ""
  }

  /** The readings of `Date.now()` one send handler takes, in the order the
      message literal reads them: one for the id, one for the image URL's
      seed (read by the image send alone), and one for the timestamp. Nothing
      ties them together: two calls can straddle a millisecond boundary. */
  datatype Clock = Clock(idAt: int, seedAt: int, stampAt: int)

  /** `c` followed by one message from me of the given kind, whose id is the
      clock's first reading in decimal and whose timestamp is its last. */
  predicate AppendsMine(c: Chat, r: Chat, kind: MessageKind, clock: Clock) {
    && |r.messages| == |c.messages| + 1
    && r.messages[..|c.messages|] == c.messages
    && var m := r.messages[|c.messages|];
       IsMe(m) && m.kind == kind && m.timestamp == clock.stampAt && m.id == IntToString(clock.idAt)
  }

  /** `handleSendText` (button or Enter): blank input changes nothing;
      otherwise the untrimmed input is sent as a text message, the input is
      cleared and the emoji picker closed. */
  function SendText(c: Chat, clock: Clock): (r: Chat)
    ensures Trim(c.input) == "" ==> r == c
    ensures Trim(c.input) != "" ==>
      && AppendsMine(c, r, TextMessage, clock) && r.messages[|c.messages|].content == Some(c.input)
      && r.input == "" && !r.showEmojiPicker
      && r.showPlusMenu == c.showPlusMenu && r.showRoutePicker == c.showRoutePicker && r.isRecording == c.isRecording
  {
    if Trim(c.input) == "" then c
    else c.(messages := c.messages + [TextFrom(ME, IntToString(clock.idAt), c.input, clock.stampAt)], input := "", showEmojiPicker := false)
  }

  /** A text send does something exactly when the send button is showing. */
  lemma SendTextIffButton(c: Chat, clock: Clock)
    ensures ShowsSendButton(c) <==> |SendText(c, clock).messages| == |c.messages| + 1
    ensures !ShowsSendButton(c) <==> SendText(c, clock) == c
  {
  }

  /** `handleSendImage`: a picture message, then the plus menu closes. */
  function SendImage(c: Chat, clock: Clock): (r: Chat)
    ensures AppendsMine(c, r, ImageMessage, clock)
    ensures r.messages[|c.messages|].imageUrl == Some("https://picsum.photos/seed/chat_" + IntToString(clock.seedAt) + "/400/300")
    ensures !r.showPlusMenu && r.input == c.input && r.showEmojiPicker == c.showEmojiPicker
    ensures r.showRoutePicker == c.showRoutePicker && r.isRecording == c.isRecording
  {
    var m := ChatMessage(IntToString(clock.idAt), ME, ImageMessage, None,
                         Some("https://picsum.photos/seed/chat_" + IntToString(clock.seedAt) + "/400/300"), None, None, None, clock.stampAt);
    c.(messages := c.messages + [m], showPlusMenu := false)
  }

  const SHARED_LOCATION: Location := Location("上海市静安区静安嘉里中心", 31.22, 121.45)

  /** `handleSendLocation`: the fixed location, then the plus menu closes. */
  function SendLocation(c: Chat, clock: Clock): (r: Chat)
    ensures AppendsMine(c, r, LocationMessage, clock)
    ensures r.messages[|c.messages|].locationData == Some(SHARED_LOCATION)
    ensures !r.showPlusMenu && r.input == c.input && r.showEmojiPicker == c.showEmojiPicker
    ensures r.showRoutePicker == c.showRoutePicker && r.isRecording == c.isRecording
  {
    var m := ChatMessage(IntToString(clock.idAt), ME, LocationMessage, None, None, None, Some(SHARED_LOCATION), None, clock.stampAt);
    c.(messages := c.messages + [m], showPlusMenu := false)
  }

  /** `handleSendVoice` (the overlay's stop button): a twelve-second voice
      message, then the recording overlay closes. */
  function SendVoice(c: Chat, clock: Clock): (r: Chat)
    ensures AppendsMine(c, r, VoiceMessage, clock)
    ensures r.messages[|c.messages|].duration == Some("0:12")
    ensures !r.isRecording && r.input == c.input && r.showEmojiPicker == c.showEmojiPicker
    ensures r.showPlusMenu == c.showPlusMenu && r.showRoutePicker == c.showRoutePicker
  {
    var m := ChatMessage(IntToString(clock.idAt), ME, VoiceMessage, None, None, None, None, Some("0:12"), clock.stampAt);
    c.(messages := c.messages + [m], isRecording := false)
  }

  /** `handleSelectRouteToShare`: the chosen route as a card, then the route
      picker and the plus menu close. */
  function ShareRoute(c: Chat, route: TravelRoute, clock: Clock): (r: Chat)
    ensures AppendsMine(c, r, RouteMessage, clock)
    ensures r.messages[|c.messages|].routeData == Some(route)
    ensures !r.showRoutePicker && !r.showPlusMenu
    ensures r.input == c.input && r.showEmojiPicker == c.showEmojiPicker && r.isRecording == c.isRecording
  {
    var m := ChatMessage(IntToString(clock.idAt), ME, RouteMessage, None, None, Some(route), None, None, clock.stampAt);
    c.(messages := c.messages + [m], showRoutePicker := false, showPlusMenu := false)
  }

  /** `handleEmojiClick`: the emoji goes at the end of the input; nothing is sent. */
  function EmojiClick(c: Chat, emoji: string): (r: Chat)
    ensures r.input == c.input + emoji && r.input[..|c.input|] == c.input
    ensures r.(input := c.input) == c
  {
    c.(input := c.input + emoji)
  }

  /** Every emoji in the picker has a character that is not whitespace, so
      picking one always brings up the send button. */
  lemma EmojiEnablesSend(c: Chat, i: int)
    requires 0 <= i < |EMOJIS|
    ensures ShowsSendButton(EmojiClick(c, EMOJIS[i]))
  {
    var s := EmojiClick(c, EMOJIS[i]).input;
    var e := EMOJIS[i];
    assert |e| > 0 && !IsWhitespace(e[0]);
    assert s[|c.input|] == e[0];
    TrimEmptyIffBlank(s);
  }

  /** The plus button toggles its menu and closes the emoji picker; the emoji
      button does the converse; the mic button opens the recording overlay
      and closes both; the overlay's close button only closes it. */
  function TogglePlusMenu(c: Chat): (r: Chat)
    ensures r.showPlusMenu == !c.showPlusMenu && !r.showEmojiPicker
    ensures r.messages == c.messages && r.input == c.input
  {
    c.(showPlusMenu := !c.showPlusMenu, showEmojiPicker := false)
  }

  function ToggleEmojiPicker(c: Chat): (r: Chat)
    ensures r.showEmojiPicker == !c.showEmojiPicker && !r.showPlusMenu
    ensures r.messages == c.messages && r.input == c.input
  {
    c.(showEmojiPicker := !c.showEmojiPicker, showPlusMenu := false)
  }

  function StartRecording(c: Chat): (r: Chat)
    ensures r.isRecording && !r.showPlusMenu && !r.showEmojiPicker
    ensures r.messages == c.messages && r.input == c.input
  {
    c.(isRecording := true, showPlusMenu := false, showEmojiPicker := false)
  }

  function CloseRecording(c: Chat): (r: Chat)
    ensures !r.isRecording && r.(isRecording := c.isRecording) == c
  {
    c.(isRecording := false)
  }

  /** The plus menu's share-route button opens the route picker and leaves
      the plus menu open behind it. */
  function OpenRoutePicker(c: Chat): (r: Chat)
    ensures r.showRoutePicker && r.(showRoutePicker := c.showRoutePicker) == c
  {
    c.(showRoutePicker := true)
  }

  /** The picker's backdrop and its close button hide it and change nothing else. */
  function CloseRoutePicker(c: Chat): (r: Chat)
    ensures !r.showRoutePicker && r.(showRoutePicker := c.showRoutePicker) == c
  {
    c.(showRoutePicker := false)
  }

  /** The plus menu and the emoji picker are never open together once either
      button has been pressed. */
  lemma PanelsExclusive(c: Chat)
    ensures !(TogglePlusMenu(c).showPlusMenu && TogglePlusMenu(c).showEmojiPicker)
    ensures !(ToggleEmojiPicker(c).showPlusMenu && ToggleEmojiPicker(c).showEmojiPicker)
  {
  }

  /** The things a user can do on the screen. */
  datatype Action =
    | TypeText(text: string) | PressSend | PickEmoji(index: nat)
    | PressPlus | PressEmoji | PressMic | CloseOverlay
    | SendPicture | SendPlace | StopRecording | PickRoute(route: TravelRoute)
    | PressShareRoute | DismissRoutePicker

  predicate ValidAction(a: Action) {
    a.PickEmoji? ==> a.index < |EMOJIS|
  }

  function Step(c: Chat, a: Action, clock: Clock): Chat
    requires ValidAction(a)
  {
    match a
    case TypeText(t) => c.(input := t)
    case PressSend => SendText(c, clock)
    case PickEmoji(i) => EmojiClick(c, EMOJIS[i])
    case PressPlus => TogglePlusMenu(c)
    case PressEmoji => ToggleEmojiPicker(c)
    case PressMic => StartRecording(c)
    case CloseOverlay => CloseRecording(c)
    case SendPicture => SendImage(c, clock)
    case SendPlace => SendLocation(c, clock)
    case StopRecording => SendVoice(c, clock)
    case PickRoute(route) => ShareRoute(c, route, clock)
    case PressShareRoute => OpenRoutePicker(c)
    case DismissRoutePicker => CloseRoutePicker(c)
  }

  /** The history only grows: every action keeps the earlier messages as they
      were and adds at most one, which is mine; exactly the send actions add
      one (a text send only with non-blank input). */
  lemma StepAppendsOnly(c: Chat, a: Action, clock: Clock)
    requires ValidAction(a)
    ensures var r := Step(c, a, clock);
      && r.messages[..|c.messages|] == c.messages
      && (|r.messages| == |c.messages| || (|r.messages| == |c.messages| + 1 && IsMe(r.messages[|c.messages|])))
      && (|r.messages| == |c.messages| + 1 <==>
            a.SendPicture? || a.SendPlace? || a.StopRecording? || a.PickRoute? || (a.PressSend? && ShowsSendButton(c)))
  {
  }

  /** The route picker opens only through the share-route button, and it
      closes through its backdrop or close button or by sharing a route. */
  lemma RoutePickerOpenClose(c: Chat, a: Action, clock: Clock)
    requires ValidAction(a)
    ensures !c.showRoutePicker && Step(c, a, clock).showRoutePicker <==> !c.showRoutePicker && a.PressShareRoute?
    ensures c.showRoutePicker && !Step(c, a, clock).showRoutePicker <==> c.showRoutePicker && (a.DismissRoutePicker? || a.PickRoute?)
  {
  }
}
