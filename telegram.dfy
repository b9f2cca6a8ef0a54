/** libs/telegram.py: the user statuses of the bot, the payload and endpoint of a
    `send_message` call, the error a refused send raises, and the status a user is in.

    The HTTP post is a parameter that answers a status code and the decoded body
    (None when the body is not JSON). The BigQuery calls are left out; the rows they
    answer are parameters. */
module Telegram {
  import opened Wrappers
  import opened Text

  /** A bot status: its code and the commands that lead to it (`Statuses`). */
  datatype Status = Status(code: int, commands: seq<string>)

  const Help := Status(-1, ["/start", "/help"])
  const NewRequest := Status(100, ["/newRequest"])
  const SrcMovie := Status(110, ["/srcMovie"])
  const SrcShow := Status(120, ["/srcShow"])

  const ApiBaseUrl := "https://api.telegram.org/bot"

  /** An exception that escapes the handler; FastAPI answers it with a 500. */
  const Crash := HttpError(500, None)

  /** Python truthiness of a decoded JSON value. */
  predicate JsonTruthy(j: Json) {
    match j
    case JNull => false
    case JBool(b) => b
    case JInt(i) => i != 0
    case JStr(s) => s != ""
    case JArr(items) => items != []
    case JObj(fields) => fields != map[]
  }

  /** Truthiness of an optional integer argument (None or 0 is falsy). */
  predicate IntTruthy(x: Option<int>) {
    x.Some? && x.value != 0
  }

  /** An optional string argument as JSON (None is `null`). */
  function TextJson(x: Option<string>): (r: Json)
    ensures x.None? <==> r == JNull
    ensures x.Some? ==> r == JStr(x.value)
  {
    if x.Some? then JStr(x.value) else JNull
  }

  /** The keys `send_message` may put in its payload. */
  datatype Key = CallbackQueryId | ParseMode | ChatId | Photo | Caption | Text | ReplyMarkup {
    /** The key as it is written in the JSON sent. */
    function Name(): string {
      match this
      case CallbackQueryId => "callback_query_id"
      case ParseMode => "parse_mode"
      case ChatId => "chat_id"
      case Photo => "photo"
      case Caption => "caption"
      case Text => "text"
      case ReplyMarkup => "reply_markup"
    }
  }

  /** The payload sent: a JSON dict (its key order does not change what it says). */
  type Payload = map<Key, Json>

  /** What the payload of `send_message` holds under each key: the callback id for a
      callback answer and the MarkdownV2 parse mode otherwise, the destination chat
      when one is given, a photo with the message as caption or else (when not a
      callback) the message as text, and the choices as the inline keyboard when there
      are any. */
  function Entry(callbackId: Option<int>, chat: Option<int>, message: Option<string>,
                 img: Option<string>, choices: Option<Json>, k: Key): (r: Option<Json>)
    ensures k == CallbackQueryId ==> (r.Some? <==> IntTruthy(callbackId))
    ensures k == CallbackQueryId && r.Some? ==> r == Some(JInt(callbackId.value))
    ensures k == ParseMode ==> (r.Some? <==> !IntTruthy(callbackId))
    ensures k == ParseMode && r.Some? ==> r == Some(JStr("MarkdownV2"))
    ensures k == ChatId ==> (r.Some? <==> IntTruthy(chat))
    ensures k == ChatId && r.Some? ==> r == Some(JInt(chat.value))
    ensures k == Photo ==> (r.Some? <==> Truthy(img))
    ensures k == Photo && r.Some? ==> r == Some(JStr(img.value))
    ensures k == Caption ==> (r.Some? <==> Truthy(img))
    ensures k == Text ==> (r.Some? <==> !Truthy(img) && !IntTruthy(callbackId))
    ensures (k == Caption || k == Text) && r.Some? ==> r == Some(TextJson(message))
    ensures k == ReplyMarkup ==> (r.Some? <==> choices.Some? && JsonTruthy(choices.value))
    ensures k == ReplyMarkup && r.Some? ==> r == Some(JObj(map["inline_keyboard" := choices.value]))
  {
    match k
    case CallbackQueryId => if IntTruthy(callbackId) then Some(JInt(callbackId.value)) else None
    case ParseMode => if IntTruthy(callbackId) then None else Some(JStr("MarkdownV2"))
    case ChatId => if IntTruthy(chat) then Some(JInt(chat.value)) else None
    case Photo => if Truthy(img) then Some(JStr(img.value)) else None
    case Caption => if Truthy(img) then Some(TextJson(message)) else None
    case Text => if !Truthy(img) && !IntTruthy(callbackId) then Some(TextJson(message)) else None
    case ReplyMarkup =>
      if choices.Some? && JsonTruthy(choices.value) then Some(JObj(map["inline_keyboard" := choices.value]))
      else None
  }

  /** `send_message`'s payload, built key by key. */
  method BuildPayload(callbackId: Option<int>, chat: Option<int>, message: Option<string>,
                      img: Option<string>, choices: Option<Json>)
    returns (payload: Payload)
    ensures forall k :: (k in payload) == Entry(callbackId, chat, message, img, choices, k).Some?
    ensures forall k :: k in payload ==> Some(payload[k]) == Entry(callbackId, chat, message, img, choices, k)
  {
    payload := map[];
    if IntTruthy(callbackId) {
      payload := payload[CallbackQueryId := JInt(callbackId.value)];
    } else {
      payload := payload[ParseMode := JStr("MarkdownV2")];
    }
    if IntTruthy(chat) {
      payload := payload[ChatId := JInt(chat.value)];
    }
    if Truthy(img) {
      payload := payload[Photo := JStr(img.value)];
      payload := payload[Caption := TextJson(message)];
    } else if !IntTruthy(callbackId) {
      payload := payload[Text := TextJson(message)];
    }
    if choices.Some? && JsonTruthy(choices.value) {
      payload := payload[ReplyMarkup := JObj(map["inline_keyboard" := choices.value])];
    }
  }

  /** The Bot API method a send calls: `answerCallbackQuery` (with no leading slash)
      for a callback answer, `/sendPhoto` with an image, `/sendMessage` otherwise. */
  function Endpoint(callbackId: Option<int>, img: Option<string>): (r: string)
    ensures IntTruthy(callbackId) ==> r == "answerCallbackQuery"
    ensures !IntTruthy(callbackId) && Truthy(img) ==> r == "/sendPhoto"
    ensures !IntTruthy(callbackId) && !Truthy(img) ==> r == "/sendMessage"
  {
    if IntTruthy(callbackId) then "answerCallbackQuery"
    else if Truthy(img) then "/sendPhoto"
    else "/sendMessage"
  }

  /** What the Bot API answers a post: its status and its decoded body, if it is JSON. */
  datatype SendAnswer = SendAnswer(status: int, body: Option<Json>)

  /** The payload as the JSON dict it is sent as. */
  function PayloadJson(p: Payload): (r: map<string, Json>)
    ensures forall k :: k in p <==> k.Name() in r
    ensures forall k :: k in p ==> r[k.Name()] == p[k]
  {
    map k | k in p :: k.Name() := p[k]
  }

  /** The `description` entry of a JSON body, when it is a dict holding one. */
  function Description(body: Json): (r: Option<Json>)
    ensures r.Some? <==> body.JObj? && "description" in body.fields
  {
    if body.JObj? && "description" in body.fields then Some(body.fields["description"]) else None
  }

  /** The end of `send_message` as the source writes it: nothing on a 200; otherwise an
      `HTTPException` with the answer's status and, as detail, the body's description
      when the body is truthy JSON and the payload sent when it is not. A truthy body
      without a description is indexed a second time outside the `try`, and the
      KeyError or TypeError escapes as a 500. */
  function SendOutcomeAsWritten(answer: SendAnswer, payload: Payload): (r: Result<()>)
    ensures answer.status == 200 <==> r.Ok?
    ensures r.Err? && r.error != Crash ==> r.error.status == answer.status
  {
    if answer.status == 200 then Ok(())
    else if answer.body.None? || !JsonTruthy(answer.body.value) then
      Err(HttpError(answer.status, Some(JObj(PayloadJson(payload)))))
    else match Description(answer.body.value)
      case Some(d) => Err(HttpError(answer.status, Some(d)))
      case None => Err(Crash)
  }

  /** The end of `send_message` as intended: a refused send always raises with the
      answer's status, carrying the description when there is one and the payload sent
      otherwise. */
  function SendOutcome(answer: SendAnswer, payload: Payload): (r: Result<()>)
    ensures answer.status == 200 <==> r.Ok?
    ensures r.Err? ==> r.error.status == answer.status
    ensures r.Err? && answer.body.Some? && Description(answer.body.value).Some? ==>
      r.error.detail == Description(answer.body.value)
    ensures r.Err? && (answer.body.None? || Description(answer.body.value).None?) ==>
      r.error.detail == Some(JObj(PayloadJson(payload)))
  {
    if answer.status == 200 then Ok(())
    else match if answer.body.Some? then Description(answer.body.value) else None
      case Some(d) => Err(HttpError(answer.status, Some(d)))
      case None => Err(HttpError(answer.status, Some(JObj(PayloadJson(payload)))))
  }

  /** Both readings agree except where the source crashes. */
  lemma SendOutcomeAgrees(answer: SendAnswer, payload: Payload)
    requires SendOutcomeAsWritten(answer, payload) != Err(Crash)
    ensures SendOutcomeAsWritten(answer, payload) == SendOutcome(answer, payload)
  {
    if answer.status != 200 && answer.body.Some? && !JsonTruthy(answer.body.value) {
      assert Description(answer.body.value).None?;
    }
  }

  /** A refused send whose JSON body has no description, such as a 404 answering
      `{"ok": false}`, raises a 500 instead of the answer's status. */
  lemma RefusalWithoutDescriptionCrashes(payload: Payload)
    ensures var answer := SendAnswer(404, Some(JObj(map["ok" := JBool(false)])));
      SendOutcomeAsWritten(answer, payload) == Err(Crash)
      && SendOutcome(answer, payload).Err? && SendOutcome(answer, payload).error.status == 404
  {
    var body := JObj(map["ok" := JBool(false)]);
    assert "description" !in body.fields;
    assert JsonTruthy(body) by { assert "ok" in body.fields; }
  }

  /** `send_message`: builds the payload, posts it to the endpoint of the call under the
      bot's token, and raises when the API refuses it. */
  method SendMessage(token: string, callbackId: Option<int>, chat: Option<int>, message: Option<string>,
                     img: Option<string>, choices: Option<Json>,
                     post: (string, Payload) -> SendAnswer)
    returns (url: string, payload: Payload, r: Result<()>)
    ensures url == ApiBaseUrl + token + Endpoint(callbackId, img)
    ensures Endpoint(callbackId, img) == "answerCallbackQuery" <==> CallbackQueryId in payload
    ensures Endpoint(callbackId, img) == "/sendPhoto" <==>
      Photo in payload && CallbackQueryId !in payload
    ensures Endpoint(callbackId, img) == "/sendMessage" <==> Text in payload
    ensures forall k :: (k in payload) == Entry(callbackId, chat, message, img, choices, k).Some?
    ensures forall k :: k in payload ==> Some(payload[k]) == Entry(callbackId, chat, message, img, choices, k)
    ensures r == SendOutcome(post(url, payload), payload)
    ensures r.Err? ==> r.error.status == post(url, payload).status
  {
    payload := BuildPayload(callbackId, chat, message, img, choices);
    url := ApiBaseUrl + token + Endpoint(callbackId, img);
    r := SendOutcome(post(url, payload), payload);
  }

  /** `get_user_status`: -1 when the query fails (None) or answers no row, else the
      status of the first row. */
  function UserStatus(rows: Option<seq<int>>): (r: int)
    ensures rows.None? || rows.value == [] ==> r == Help.code
    ensures rows.Some? && rows.value != [] ==> r == rows.value[0]
  {
    if rows.None? || rows.value == [] then -1 else rows.value[0]
  }
}
