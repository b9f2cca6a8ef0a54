/** routers/telegram.py: `plexa_answer`, the webhook of the bot. It reads the command
    or the message an update carries, then answers a command with the reply of the
    action tree, or routes a message by its text and the user's status.

    The action tree, the user's status, the media searches, the paginated keyboard
    and the emoji rendering are parameters. What the handler sends and the statuses it
    writes are recorded, in order, as effects. */
module TelegramRouter {
  import opened Wrappers
  import opened Text
  import Telegram

  const NotImplemented := HttpError(501, Some(JStr("Not Implemented")))
  const InternalServerError := HttpError(500, Some(JStr("Internal Server Error")))
  /** An exception that escapes the handler (KeyError, IndexError); FastAPI answers a 500. */
  const Crash := HttpError(500, None)
  const NoContent := 204

  const HelpCommand := "/help"
  const SrcMovieCommand := "/srcMovie"
  const SrcShowCommand := "/srcShow"
  const PlexNotFound := "plex://not-found"
  const OnlineNotice := "Ottimo, faccio subito una ricerca online"

  /** A message entity: its type and its `offset` and `length` fields. */
  datatype Entity = Entity(kind: string, offset: nat, length: nat)

  /** A message update: its chat id, its text (absent for non-text messages) and its
      entities, when it has that key. */
  datatype Message = Message(chatId: int, text: Option<string>, entities: Option<seq<Entity>>)

  /** A callback-query update: its id, the chat of its message, and its data, if any. */
  datatype CallbackQuery = CallbackQuery(id: int, chatId: int, data: Option<string>)

  /** The keys of an update the handler looks at. */
  datatype Update = Update(message: Option<Message>, callback: Option<CallbackQuery>)

  /** An entry of the action tree: its status code and its choices when it has those
      keys, and its message. */
  datatype ActionEntry = ActionEntry(statusCode: Option<int>, message: string, choices: Option<Json>)

  type ActionTree = map<string, ActionEntry>

  /** What a search answers for one result. */
  datatype Hit = Hit(title: string, year: Option<string>, guid: string)

  /** A keyboard choice: its text and its link. */
  datatype Choice = Choice(text: string, link: string)

  /** What the handler does to the outside world. */
  datatype Effect =
    | AnswerCallback(callbackId: int)
    | SendText(chat: int, text: string, choices: Option<Json>)
    | SetStatus(chat: int, status: int)

  // ---------------------------------------------------------------------------
  // Reading the update

  /** The `bot_command` entities of a message, in order. */
  function BotCommands(es: seq<Entity>): (r: seq<Entity>)
    ensures forall i :: 0 <= i < |r| ==> r[i].kind == "bot_command" && r[i] in es
    ensures r == [] <==> forall i :: 0 <= i < |es| ==> es[i].kind != "bot_command"
    ensures r != [] ==> exists i :: 0 <= i < |es| && es[i] == r[0] && forall j :: 0 <= j < i ==> es[j].kind != "bot_command"
  {
    if es == [] then []
    else if es[0].kind == "bot_command" then [es[0]] + BotCommands(es[1..])
    else
      var rest := BotCommands(es[1..]);
      assert rest != [] ==> exists i :: 0 <= i < |es| && es[i] == rest[0] && forall j :: 0 <= j < i ==> es[j].kind != "bot_command" by {
        if rest != [] {
          var i :| 0 <= i < |es[1..]| && es[1..][i] == rest[0] && forall j :: 0 <= j < i ==> es[1..][j].kind != "bot_command";
          assert es[i + 1] == rest[0];
          assert forall j :: 0 <= j < i + 1 ==> es[j].kind != "bot_command" by {
            forall j | 0 < j < i + 1 ensures es[j].kind != "bot_command" { assert es[j] == es[1..][j - 1]; }
          }
        }
      }
      rest
  }

  /** What the handler has read from an update: the action (a command or a callback's
      data), the chat, and the message. */
  datatype Parsed = Parsed(action: Option<string>, chatId: int, message: Option<string>)

  /** A truthy action that is not a command is handled as a message. */
  function Forward(p: Parsed): (r: Parsed)
    ensures r.chatId == p.chatId
    ensures Truthy(r.action) ==> StartsWith(r.action.value, "/")
    ensures Truthy(p.action) && !StartsWith(p.action.value, "/") ==> r.action.None? && r.message == p.action
    ensures !(Truthy(p.action) && !StartsWith(p.action.value, "/")) ==> r == p
  {
    if Truthy(p.action) && !StartsWith(p.action.value, "/") then Parsed(None, p.chatId, p.action) else p
  }

  /** The command of a message with entities: `text[offset:length]` of its first
      `bot_command` entity, the length taken as an end position. */
  function CommandOf(text: string, c: Entity): (r: string)
    ensures c.offset < c.length <= |text| ==> r == text[c.offset..c.length]
    ensures c.length <= c.offset ==> r == ""
    ensures |text| < c.length ==> r == if c.offset < |text| then text[c.offset..] else ""
  {
    Slice(text, c.offset, c.length)
  }

  /** The update read: 501 when it holds neither a message nor a callback query; a
      callback's data as the action; a message's stripped, lower-cased text as the
      message, with the command of its first `bot_command` entity as the action when
      it has entities. A callback without data, a message without text and entities
      with no command raise. A non-command action is then handed over as the message. */
  function Parse(u: Update): (r: Result<Parsed>)
    ensures r == Err(NotImplemented) <==> u.message.None? && u.callback.None?
    ensures u.callback.Some? ==> (r.Err? <==> u.callback.value.data.None?)
    ensures u.callback.Some? && r.Ok? ==>
      r.value == Forward(Parsed(u.callback.value.data, u.callback.value.chatId, None))
    ensures u.callback.None? && u.message.Some? ==>
      (r.Err? <==> (u.message.value.text.None? ||
                    (u.message.value.entities.Some? && BotCommands(u.message.value.entities.value) == [])))
    ensures u.callback.None? && u.message.Some? && r.Ok? ==>
      r.value.chatId == u.message.value.chatId
    ensures u.callback.None? && u.message.Some? && r.Ok? && u.message.value.entities.None? ==>
      r.value == Parsed(None, u.message.value.chatId, Some(Lower(Strip(u.message.value.text.value))))
    ensures r.Err? ==> r.error == NotImplemented || r.error == Crash
  {
    if u.callback.Some? then
      var cb := u.callback.value;
      if cb.data.None? then Err(Crash) else Ok(Forward(Parsed(cb.data, cb.chatId, None)))
    else if u.message.Some? then
      var m := u.message.value;
      if m.text.None? then Err(Crash)
      else
        var msg := Lower(Strip(m.text.value));
        if m.entities.None? then Ok(Forward(Parsed(None, m.chatId, Some(msg))))
        else
          var commands := BotCommands(m.entities.value);
          if commands == [] then Err(Crash)
          else Ok(Forward(Parsed(Some(CommandOf(m.text.value, commands[0])), m.chatId, Some(msg))))
    else Err(NotImplemented)
  }

  /** A message with entities takes as its action the command of its first
      `bot_command` entity, `text[offset:length]`, beside its stripped, lower-cased
      text as the message; a non-command action is then handed over as the message. */
  lemma CommandAction(u: Update)
    requires u.callback.None? && u.message.Some? && u.message.value.entities.Some?
    requires Parse(u).Ok?
    ensures var m := u.message.value;
      && BotCommands(m.entities.value) != []
      && Parse(u).value == Forward(Parsed(Some(CommandOf(m.text.value, BotCommands(m.entities.value)[0])),
                                         m.chatId, Some(Lower(Strip(m.text.value)))))
  {
  }

  /** An update the handler refuses with a 500: no chat, or neither action nor message. */
  predicate Rejected(p: Parsed) {
    p.chatId == 0 || (!Truthy(p.action) && !Truthy(p.message))
  }

  /** A callback's data that is not a command comes back as the message, unchanged
      (neither stripped nor lower-cased). */
  lemma CallbackDataBecomesMessage(u: Update)
    requires u.callback.Some? && Truthy(u.callback.value.data)
    requires !StartsWith(u.callback.value.data.value, "/")
    ensures Parse(u) == Ok(Parsed(None, u.callback.value.chatId, u.callback.value.data))
  {
  }

  /** A command entity after the start of the text yields `text[offset:length]`, which
      is shorter than the command: `/start` at offset 3 of `hi /start` reads `/st`. */
  lemma CommandSliceQuirk(text: string, c: Entity)
    requires text == "hi /start" && c == Entity("bot_command", 3, 6)
    ensures CommandOf(text, c) == "/st"
  {
  }

  // ---------------------------------------------------------------------------
  // Commands

  /** The tree key a command is answered with: itself when the tree has it, else `/help`. */
  function CommandKey(tree: ActionTree, action: string): (r: string)
    ensures action in tree ==> r == action
    ensures action !in tree ==> r == HelpCommand
  {
    if action in tree then action else HelpCommand
  }

  /** The keyboard a reply passes on: the choices only when they are truthy. */
  function Keyboard(choices: Option<Json>): (r: Option<Json>)
    ensures r.Some? <==> choices.Some? && Telegram.JsonTruthy(choices.value)
    ensures r.Some? ==> r == choices
  {
    if choices.Some? && Telegram.JsonTruthy(choices.value) then choices else None
  }

  /** `send_and_register` for a command: the reply of its tree entry and the entry's
      status code written as the user's status. A tree without the key, or an entry
      without a status code, raises before anything is sent. */
  function CommandReply(chat: int, action: string, tree: ActionTree): (r: Result<seq<Effect>>)
    ensures r.Ok? <==> CommandKey(tree, action) in tree && tree[CommandKey(tree, action)].statusCode.Some?
    ensures r.Err? ==> r.error == Crash
    ensures r.Ok? ==> var e := tree[CommandKey(tree, action)];
      r.value == [SendText(chat, e.message, Keyboard(e.choices)), SetStatus(chat, e.statusCode.value)]
  {
    var key := CommandKey(tree, action);
    if key !in tree || tree[key].statusCode.None? then Err(Crash)
    else
      var e := tree[key];
      Ok([SendText(chat, e.message, Keyboard(e.choices)), SetStatus(chat, e.statusCode.value)])
  }

  // ---------------------------------------------------------------------------
  // Messages

  /** How a message is answered. */
  datatype Route = HelpRoute | PlexFound | OnlineFound | OnlineNotFound | SearchRoute | Unhandled

  /** The status code of a tree key, read only when the key is there: a key without
      one raises. */
  predicate MissingCode(tree: ActionTree, key: string) {
    key in tree && tree[key].statusCode.None?
  }

  predicate HasCode(tree: ActionTree, key: string, code: int) {
    key in tree && tree[key].statusCode == Some(code)
  }

  predicate FromOnlineProvider(msg: string) {
    StartsWith(msg, "imdb") || StartsWith(msg, "tmdb") || StartsWith(msg, "tvdb")
  }

  /** The routing of a message, first match wins: the help status; a Plex id
      (`plex…` without `not-found`); an online id (`imdb…`, `tmdb…` or `tvdb…` without
      `not-found`); `online://not-found…`; a user in one of the search statuses. A
      tree without `/help` or its status code raises, and so does a search key without
      a status code once the search statuses are read. */
  function RouteOf(msg: string, userStatus: int, tree: ActionTree): (r: Result<Route>)
    ensures r.Err? ==> r.error == Crash
    ensures r.Err? <==> (
      || HelpCommand !in tree
      || MissingCode(tree, HelpCommand)
      || (&& tree[HelpCommand].statusCode != Some(userStatus)
          && !(StartsWith(msg, "plex") && !Contains(msg, "not-found"))
          && !(FromOnlineProvider(msg) && !Contains(msg, "not-found"))
          && !StartsWith(msg, "online://not-found")
          && (MissingCode(tree, SrcMovieCommand) || MissingCode(tree, SrcShowCommand))))
    ensures r == Ok(HelpRoute) <==> HasCode(tree, HelpCommand, userStatus)
    ensures r == Ok(SearchRoute) ==> HasCode(tree, SrcMovieCommand, userStatus) || HasCode(tree, SrcShowCommand, userStatus)
  {
    if HelpCommand !in tree || tree[HelpCommand].statusCode.None? then Err(Crash)
    else if userStatus == tree[HelpCommand].statusCode.value then Ok(HelpRoute)
    else if StartsWith(msg, "plex") && !Contains(msg, "not-found") then Ok(PlexFound)
    else if FromOnlineProvider(msg) && !Contains(msg, "not-found") then Ok(OnlineFound)
    else if StartsWith(msg, "online://not-found") then Ok(OnlineNotFound)
    else if MissingCode(tree, SrcMovieCommand) || MissingCode(tree, SrcShowCommand) then Err(Crash)
    else if HasCode(tree, SrcMovieCommand, userStatus) || HasCode(tree, SrcShowCommand, userStatus) then Ok(SearchRoute)
    else Ok(Unhandled)
  }

  /** A message mentioning `not-found` is never taken as a found id. */
  lemma NotFoundIsNeverFound(msg: string, userStatus: int, tree: ActionTree)
    requires Contains(msg, "not-found")
    requires RouteOf(msg, userStatus, tree).Ok?
    ensures RouteOf(msg, userStatus, tree).value != PlexFound
    ensures RouteOf(msg, userStatus, tree).value != OnlineFound
  {
  }

  /** The order of the checks: a user in the help status is sent to `/help` whatever
      the message; otherwise an id of Plex or of an online provider wins over the
      search statuses. */
  lemma IdsWinOverSearch(msg: string, userStatus: int, tree: ActionTree)
    requires HelpCommand in tree && tree[HelpCommand].statusCode.Some?
    requires tree[HelpCommand].statusCode.value != userStatus
    requires (StartsWith(msg, "plex") || FromOnlineProvider(msg)) && !Contains(msg, "not-found")
    ensures RouteOf(msg, userStatus, tree).Ok?
    ensures StartsWith(msg, "plex") ==> RouteOf(msg, userStatus, tree) == Ok(PlexFound)
    ensures !StartsWith(msg, "plex") ==> RouteOf(msg, userStatus, tree) == Ok(OnlineFound)
  {
  }

  /** The tree key of a route that is not a search; an unhandled message has none. */
  function RouteAction(route: Route): (r: Option<string>)
    requires !route.SearchRoute?
    ensures r.None? <==> route.Unhandled?
  {
    match route
    case HelpRoute => Some(HelpCommand)
    case PlexFound => Some("plex://found")
    case OnlineFound => Some("online://found")
    case OnlineNotFound => Some("online://not-found")
    case Unhandled => None
  }

  /** The media type of a search: `movie` for the `/srcMovie` status, else `show`; a
      tree without `/srcMovie` or its status code raises. */
  function MediaTypeOf(userStatus: int, tree: ActionTree): (r: Result<string>)
    ensures r.Err? <==> SrcMovieCommand !in tree || tree[SrcMovieCommand].statusCode.None?
    ensures r.Err? ==> r.error == Crash
    ensures r.Ok? ==> (r.value == "movie" <==> HasCode(tree, SrcMovieCommand, userStatus))
    ensures r.Ok? ==> r.value == "movie" || r.value == "show"
  {
    if SrcMovieCommand !in tree || tree[SrcMovieCommand].statusCode.None? then Err(Crash)
    else if userStatus == tree[SrcMovieCommand].statusCode.value then Ok("movie")
    else Ok("show")
  }

  /** What a search message asks for: the Plex search with the message as title, unless
      the message starts with `plex://not-found` (Plex already answered nothing); then
      the online search, with every `plex://not-found` removed from the title. */
  datatype SearchPlan = SearchPlan(action: string, title: string, online: bool)

  function PlanOf(msg: string): (r: SearchPlan)
    ensures r.online <==> StartsWith(msg, PlexNotFound)
    ensures !r.online ==> r == SearchPlan("plex://results", msg, false)
    ensures r.online ==> r.action == "online://results" && r.title == ReplaceAll(msg, PlexNotFound, "")
  {
    if !StartsWith(msg, PlexNotFound) then SearchPlan("plex://results", msg, false)
    else SearchPlan("online://results", ReplaceAll(msg, PlexNotFound, ""), true)
  }

  /** The online search drops the `plex://not-found` prefix of the title. */
  lemma OnlineTitleDropsPrefix(msg: string)
    requires StartsWith(msg, PlexNotFound)
    ensures PlanOf(msg).title == ReplaceAll(msg[|PlexNotFound|..], PlexNotFound, "")
  {
    assert OccursAt(msg, PlexNotFound, 0);
  }

  /** The icon alias of a choice. */
  function Icon(mediaType: string): (r: string)
    ensures mediaType == "movie" ==> r == ":movie_camera:"
    ensures mediaType != "movie" ==> r == ":clapper_board:"
  {
    if mediaType == "movie" then ":movie_camera:" else ":clapper_board:"
  }

  /** The text of a hit's choice before emoji rendering: `{icon} {title} ({year})`,
      with `N/D` for a missing or empty year. */
  function ChoiceText(h: Hit, mediaType: string): (r: string)
    ensures StartsWith(r, Icon(mediaType) + " " + h.title + " (")
    ensures Truthy(h.year) ==> EndsWith(r, h.year.value + ")")
    ensures !Truthy(h.year) ==> EndsWith(r, "N/D)")
    ensures r == Icon(mediaType) + " " + h.title + " (" + (if Truthy(h.year) then h.year.value else "N/D") + ")"
  {
    var head := Icon(mediaType) + " " + h.title + " (";
    var tail := (if Truthy(h.year) then h.year.value else "N/D") + ")";
    assert (head + tail)[..|head|] == head;
    assert (head + tail)[|head + tail| - |tail|..] == tail;
    head + tail
  }

  /** One choice per hit, in order, rendered by `emojize` and linking to the hit's GUID. */
  function ChoicesOf(hits: seq<Hit>, mediaType: string, emojize: string -> string): (r: seq<Choice>)
    ensures |r| == |hits|
    ensures forall i :: 0 <= i < |hits| ==> r[i] == Choice(emojize(ChoiceText(hits[i], mediaType)), hits[i].guid)
  {
    seq(|hits|, i requires 0 <= i < |hits| => Choice(emojize(ChoiceText(hits[i], mediaType)), hits[i].guid))
  }

  /** The base link of the paginated keyboard: `plex://<type>search/<title>` (with no
      slash before `search`) when Plex answered, else
      `tmdb://<type>/search/<title>` for movies and `tvdb://<type>/search/<title>`. */
  function SearchBase(mediaType: string, title: string, plexAnswered: bool): (r: string)
    ensures plexAnswered ==> r == "plex://" + mediaType + "search/" + title
    ensures !plexAnswered && mediaType == "movie" ==> r == "tmdb://" + mediaType + "/search/" + title
    ensures !plexAnswered && mediaType != "movie" ==> r == "tvdb://" + mediaType + "/search/" + title
  {
    if plexAnswered then "plex://" + mediaType + "search/" + title
    else (if mediaType == "movie" then "tmdb://" else "tvdb://") + mediaType + "/search/" + title
  }

  /** A media search: title and media type to the results of the first answer. */
  type Search = (string, string) -> seq<Hit>

  /** `choices if choices else entry['choices']` (None when the entry has none). */
  function PassedChoices(keyboard: Option<Json>, entryChoices: Option<Json>): (r: Option<Json>)
    ensures keyboard.Some? && Telegram.JsonTruthy(keyboard.value) ==> r == keyboard
    ensures !(keyboard.Some? && Telegram.JsonTruthy(keyboard.value)) ==> r == entryChoices
  {
    if keyboard.Some? && Telegram.JsonTruthy(keyboard.value) then keyboard else entryChoices
  }

  /** The reply to a message once its action is chosen: the entry's message with the
      search keyboard when it is truthy, else the entry's own choices; then the entry's
      status code as the user's status, only when it has one. No action, or an action
      the tree lacks, raises. */
  function MessageReply(chat: int, action: Option<string>, keyboard: Option<Json>, tree: ActionTree)
    : (r: Result<seq<Effect>>)
    ensures r.Err? <==> action.None? || action.value !in tree
    ensures r.Err? ==> r.error == Crash
    ensures r.Ok? ==> var e := tree[action.value];
      && |r.value| == (if e.statusCode.Some? then 2 else 1)
      && r.value[0] == SendText(chat, e.message, PassedChoices(keyboard, e.choices))
      && (e.statusCode.Some? ==> r.value[1] == SetStatus(chat, e.statusCode.value))
  {
    if action.None? || action.value !in tree then Err(Crash)
    else
      var e := tree[action.value];
      var send := SendText(chat, e.message, PassedChoices(keyboard, e.choices));
      if e.statusCode.Some? then Ok([send, SetStatus(chat, e.statusCode.value)]) else Ok([send])
  }

  /** The whole answer to an update: the effects in order, and 204 or the error
      raised (effects already performed stay performed). */
  datatype Outcome = Outcome(effects: seq<Effect>, result: Result<int>)

  /** The outcome once the reply is known: what was sent before it, then the reply. */
  function Finish(before: seq<Effect>, reply: Result<seq<Effect>>): (r: Outcome)
    ensures reply.Err? ==> r == Outcome(before, Err(reply.error))
    ensures reply.Ok? ==> r == Outcome(before + reply.value, Ok(NoContent))
  {
    match reply
    case Err(e) => Outcome(before, Err(e))
    case Ok(fx) => Outcome(before + fx, Ok(NoContent))
  }

  /** The keyboard of a search: the paginated choices of the hits, from Plex for a
      fresh title, else from TMDB for movies and TheTVDB for shows. */
  function SearchKeyboard(msg: string, mediaType: string, plex: Search, tmdb: Search, tvdb: Search,
                          paginate: (string, seq<Choice>) -> Json, emojize: string -> string): (r: Json)
  {
    var plan := PlanOf(msg);
    var hits :=
      if !plan.online then plex(Strip(msg), mediaType)
      else if mediaType == "movie" then tmdb(plan.title, mediaType)
      else tvdb(plan.title, mediaType);
    paginate(SearchBase(mediaType, plan.title, !plan.online && hits != []), ChoicesOf(hits, mediaType, emojize))
  }

  /** The answer to a message in a search status: the notice first when the search
      goes online, then the reply of the search's action with its keyboard. */
  function SearchAnswer(chat: int, msg: string, userStatus: int, tree: ActionTree,
                        plex: Search, tmdb: Search, tvdb: Search,
                        paginate: (string, seq<Choice>) -> Json, emojize: string -> string): (r: Outcome)
    ensures ToChat(r.effects, chat)
  {
    match MediaTypeOf(userStatus, tree)
    case Err(e) => Outcome([], Err(e))
    case Ok(mediaType) =>
      var plan := PlanOf(msg);
      var notice := if plan.online then [SendText(chat, OnlineNotice, None)] else [];
      var keyboard := SearchKeyboard(msg, mediaType, plex, tmdb, tvdb, paginate, emojize);
      var reply := MessageReply(chat, Some(plan.action), Some(keyboard), tree);
      assert ToChat(notice, chat);
      assert reply.Ok? ==> ToChat(reply.value, chat);
      FinishToChat(notice, reply, chat);
      Finish(notice, reply)
  }

  /** Every effect is sent to the chat, and none answers a callback. */
  predicate ToChat(fx: seq<Effect>, chat: int) {
    forall i :: 0 <= i < |fx| ==> !fx[i].AnswerCallback? && fx[i].chat == chat
  }

  lemma FinishToChat(before: seq<Effect>, reply: Result<seq<Effect>>, chat: int)
    requires ToChat(before, chat) && (reply.Ok? ==> ToChat(reply.value, chat))
    ensures ToChat(Finish(before, reply).effects, chat)
  {
    if reply.Ok? {
      var fx := before + reply.value;
      forall i | 0 <= i < |fx|
        ensures !fx[i].AnswerCallback? && fx[i].chat == chat
      {
        if i >= |before| {
          assert fx[i] == reply.value[i - |before|];
        }
      }
    }
  }

  /** The answer to a message in the given status. */
  function MessageAnswer(chat: int, msg: string, userStatus: int, tree: ActionTree,
                         plex: Search, tmdb: Search, tvdb: Search,
                         paginate: (string, seq<Choice>) -> Json, emojize: string -> string): (r: Outcome)
    ensures ToChat(r.effects, chat)
  {
    match RouteOf(msg, userStatus, tree)
    case Err(e) => Outcome([], Err(e))
    case Ok(route) =>
      if !route.SearchRoute? then
        var reply := MessageReply(chat, RouteAction(route), None, tree);
        assert reply.Ok? ==> ToChat(reply.value, chat);
        FinishToChat([], reply, chat);
        Finish([], reply)
      else SearchAnswer(chat, msg, userStatus, tree, plex, tmdb, tvdb, paginate, emojize)
  }

  /** What follows the reading of an update: 500 without chat or content, a command
      answered from the tree, or the message routed. */
  function Dispatch(p: Parsed, tree: ActionTree, userStatus: int, plex: Search, tmdb: Search, tvdb: Search,
                    paginate: (string, seq<Choice>) -> Json, emojize: string -> string): (r: Outcome)
    ensures Rejected(p) ==> r.effects == [] && r.result == Err(InternalServerError)
    ensures ToChat(r.effects, p.chatId)
  {
    if Rejected(p) then Outcome([], Err(InternalServerError))
    else if Truthy(p.action) then
      var reply := CommandReply(p.chatId, p.action.value, tree);
      FinishToChat([], reply, p.chatId);
      Finish([], reply)
    else MessageAnswer(p.chatId, p.message.value, userStatus, tree, plex, tmdb, tvdb, paginate, emojize)
  }

  /** `plexa_answer` as a function of the update, the action tree, the user's status
      and the outside services. */
  function Answer(u: Update, tree: ActionTree, userStatus: int, plex: Search, tmdb: Search, tvdb: Search,
                  paginate: (string, seq<Choice>) -> Json, emojize: string -> string): (r: Outcome)
    ensures u.callback.Some? ==> |r.effects| >= 1 && r.effects[0] == AnswerCallback(u.callback.value.id)
    ensures forall i :: 0 < i < |r.effects| ==> !r.effects[i].AnswerCallback?
    ensures u.callback.None? ==> forall i :: 0 <= i < |r.effects| ==> !r.effects[i].AnswerCallback?
  {
    var answered := if u.callback.Some? then [AnswerCallback(u.callback.value.id)] else [];
    match Parse(u)
    case Err(e) => Outcome(answered, Err(e))
    case Ok(p) =>
      var d := Dispatch(p, tree, userStatus, plex, tmdb, tvdb, paginate, emojize);
      Outcome(answered + d.effects, d.result)
  }

  // ---------------------------------------------------------------------------
  // What the handler promises

  /** An update with neither a message nor a callback query is refused with a 501, and
      nothing is sent. */
  lemma NoContentNotImplemented(u: Update, tree: ActionTree, userStatus: int, plex: Search, tmdb: Search, tvdb: Search,
                 paginate: (string, seq<Choice>) -> Json, emojize: string -> string)
    requires u.message.None? && u.callback.None?
    ensures Answer(u, tree, userStatus, plex, tmdb, tvdb, paginate, emojize) == Outcome([], Err(NotImplemented))
  {
  }

  /** A callback query is answered before anything else, even when the handler then
      fails; an update without one never answers a callback. */
  lemma CallbackAnsweredFirst(u: Update, tree: ActionTree, userStatus: int, plex: Search, tmdb: Search, tvdb: Search,
                 paginate: (string, seq<Choice>) -> Json, emojize: string -> string)
    ensures var a := Answer(u, tree, userStatus, plex, tmdb, tvdb, paginate, emojize);
      u.callback.Some? ==> |a.effects| >= 1 && a.effects[0] == AnswerCallback(u.callback.value.id)
    ensures var a := Answer(u, tree, userStatus, plex, tmdb, tvdb, paginate, emojize);
      u.callback.None? ==> forall i :: 0 <= i < |a.effects| ==> !a.effects[i].AnswerCallback?
  {
    if Parse(u).Ok? {
      var p := Parse(u).value;
      if !Rejected(p) && !Truthy(p.action) {
        var m := MessageAnswer(p.chatId, p.message.value, userStatus, tree, plex, tmdb, tvdb, paginate, emojize);
      }
    }
  }

  /** An update without chat, or with neither action nor message, is refused with a 500. */
  lemma UnusableUpdateRejected(u: Update, tree: ActionTree, userStatus: int, plex: Search, tmdb: Search, tvdb: Search,
                 paginate: (string, seq<Choice>) -> Json, emojize: string -> string)
    requires Parse(u).Ok? && Rejected(Parse(u).value)
    ensures Answer(u, tree, userStatus, plex, tmdb, tvdb, paginate, emojize).result == Err(InternalServerError)
  {
  }

  /** A command is answered by its own tree entry, or by `/help` when the tree does not
      know it: the entry's message, then the entry's status code written as the user's
      status. An answering entry without a status code raises. */
  lemma CommandAnswered(u: Update, tree: ActionTree, userStatus: int, plex: Search, tmdb: Search, tvdb: Search,
                 paginate: (string, seq<Choice>) -> Json, emojize: string -> string)
    requires Parse(u).Ok? && !Rejected(Parse(u).value) && Truthy(Parse(u).value.action)
    ensures var p := Parse(u).value;
      var key := CommandKey(tree, p.action.value);
      var a := Answer(u, tree, userStatus, plex, tmdb, tvdb, paginate, emojize);
      && (p.action.value !in tree ==> key == HelpCommand)
      && (a.result.Ok? <==> key in tree && tree[key].statusCode.Some?)
      && (a.result.Ok? ==>
            && |a.effects| >= 2
            && a.effects[|a.effects| - 2] == SendText(p.chatId, tree[key].message, Keyboard(tree[key].choices))
            && a.effects[|a.effects| - 1] == SetStatus(p.chatId, tree[key].statusCode.value))
  {
  }

  /** After a routed message the user's status is written exactly when the entry of the
      chosen action has a status code, and then last. */
  lemma MessageStatusFollowsEntry(u: Update, tree: ActionTree, userStatus: int, plex: Search, tmdb: Search, tvdb: Search,
                 paginate: (string, seq<Choice>) -> Json, emojize: string -> string)
    requires Parse(u).Ok? && !Rejected(Parse(u).value) && !Truthy(Parse(u).value.action)
    requires RouteOf(Parse(u).value.message.value, userStatus, tree).Ok?
    requires var route := RouteOf(Parse(u).value.message.value, userStatus, tree).value;
      !route.SearchRoute? && !route.Unhandled? && RouteAction(route).value in tree
    ensures var p := Parse(u).value;
      var e := tree[RouteAction(RouteOf(p.message.value, userStatus, tree).value).value];
      var a := Answer(u, tree, userStatus, plex, tmdb, tvdb, paginate, emojize);
      && a.result == Ok(NoContent)
      && ((exists i :: 0 <= i < |a.effects| && a.effects[i].SetStatus?) <==> e.statusCode.Some?)
      && (e.statusCode.Some? ==> a.effects[|a.effects| - 1] == SetStatus(p.chatId, e.statusCode.value))
  {
    var p := Parse(u).value;
    var a := Answer(u, tree, userStatus, plex, tmdb, tvdb, paginate, emojize);
    var answered := if u.callback.Some? then [AnswerCallback(u.callback.value.id)] else [];
    var route := RouteOf(p.message.value, userStatus, tree).value;
    var e := tree[RouteAction(route).value];
    var reply := MessageReply(p.chatId, RouteAction(route), None, tree);
    var m := MessageAnswer(p.chatId, p.message.value, userStatus, tree, plex, tmdb, tvdb, paginate, emojize);
    RoutedReply(p.chatId, p.message.value, userStatus, tree, plex, tmdb, tvdb, paginate, emojize, route);
    MessageOutcome(u, tree, userStatus, plex, tmdb, tvdb, paginate, emojize);
    var fx := reply.value;
    assert a.effects == answered + fx;
    assert forall i :: 0 <= i < |answered| ==> !a.effects[i].SetStatus?;
    if e.statusCode.None? {
      assert fx == [SendText(p.chatId, e.message, PassedChoices(None, e.choices))];
      assert forall i :: |answered| <= i < |a.effects| ==> a.effects[i] == fx[i - |answered|];
    } else {
      assert a.effects[|a.effects| - 1].SetStatus?;
    }
  }

  /** A message from a user whose status has no route (neither help nor a search
      status), and that carries no id, leaves the action unset: reading the tree at it
      raises, a 500. */
  lemma UnhandledMessageCrashes(u: Update, tree: ActionTree, userStatus: int, plex: Search, tmdb: Search, tvdb: Search,
                 paginate: (string, seq<Choice>) -> Json, emojize: string -> string)
    requires Parse(u).Ok? && !Rejected(Parse(u).value) && !Truthy(Parse(u).value.action)
    requires RouteOf(Parse(u).value.message.value, userStatus, tree) == Ok(Unhandled)
    ensures Answer(u, tree, userStatus, plex, tmdb, tvdb, paginate, emojize).result == Err(Crash)
  {
  }

  /** The answer to a message: the callback answer, if any, then the message's own. */
  lemma MessageOutcome(u: Update, tree: ActionTree, userStatus: int, plex: Search, tmdb: Search, tvdb: Search,
                 paginate: (string, seq<Choice>) -> Json, emojize: string -> string)
    requires Parse(u).Ok? && !Rejected(Parse(u).value) && !Truthy(Parse(u).value.action)
    ensures var p := Parse(u).value;
      var m := MessageAnswer(p.chatId, p.message.value, userStatus, tree, plex, tmdb, tvdb, paginate, emojize);
      var answered := if u.callback.Some? then [AnswerCallback(u.callback.value.id)] else [];
      Answer(u, tree, userStatus, plex, tmdb, tvdb, paginate, emojize) == Outcome(answered + m.effects, m.result)
  {
  }

  /** A search answers the notice, if the search goes online, then the entry of its
      action with the keyboard of the hits. */
  lemma SearchOutcome(chat: int, msg: string, userStatus: int, tree: ActionTree,
                      plex: Search, tmdb: Search, tvdb: Search,
                      paginate: (string, seq<Choice>) -> Json, emojize: string -> string, mediaType: string)
    requires RouteOf(msg, userStatus, tree) == Ok(SearchRoute) && MediaTypeOf(userStatus, tree) == Ok(mediaType)
    requires PlanOf(msg).action in tree
    ensures var plan := PlanOf(msg);
      var notice := if plan.online then [SendText(chat, OnlineNotice, None)] else [];
      var keyboard := SearchKeyboard(msg, mediaType, plex, tmdb, tvdb, paginate, emojize);
      var e := tree[plan.action];
      var m := MessageAnswer(chat, msg, userStatus, tree, plex, tmdb, tvdb, paginate, emojize);
      && m.result == Ok(NoContent)
      && |m.effects| > |notice|
      && m.effects[..|notice|] == notice
      && m.effects[|notice|] == SendText(chat, e.message, PassedChoices(Some(keyboard), e.choices))
  {
    var plan := PlanOf(msg);
    var notice := if plan.online then [SendText(chat, OnlineNotice, None)] else [];
    var keyboard := SearchKeyboard(msg, mediaType, plex, tmdb, tvdb, paginate, emojize);
    var reply := MessageReply(chat, Some(plan.action), Some(keyboard), tree);
    var m := MessageAnswer(chat, msg, userStatus, tree, plex, tmdb, tvdb, paginate, emojize);
    assert m == SearchAnswer(chat, msg, userStatus, tree, plex, tmdb, tvdb, paginate, emojize);
    assert m == Finish(notice, reply);
    assert m.effects == notice + reply.value;
  }

  /** In a search status a fresh title is searched on Plex first, under its stripped
      text, and no notice is sent. */
  lemma PlexSearchedFirst(u: Update, tree: ActionTree, userStatus: int, plex: Search, tmdb: Search, tvdb: Search,
                 paginate: (string, seq<Choice>) -> Json, emojize: string -> string)
    requires Parse(u).Ok? && !Rejected(Parse(u).value) && !Truthy(Parse(u).value.action)
    requires RouteOf(Parse(u).value.message.value, userStatus, tree) == Ok(SearchRoute)
    requires MediaTypeOf(userStatus, tree).Ok?
    requires !StartsWith(Parse(u).value.message.value, PlexNotFound) && "plex://results" in tree
    ensures var p := Parse(u).value;
      var msg := p.message.value;
      var mediaType := MediaTypeOf(userStatus, tree).value;
      var hits := plex(Strip(msg), mediaType);
      var keyboard := paginate(SearchBase(mediaType, msg, hits != []), ChoicesOf(hits, mediaType, emojize));
      var e := tree["plex://results"];
      var n := if u.callback.Some? then 1 else 0;
      var a := Answer(u, tree, userStatus, plex, tmdb, tvdb, paginate, emojize);
      && a.result == Ok(NoContent)
      && |a.effects| > n
      && a.effects[n] == SendText(p.chatId, e.message, PassedChoices(Some(keyboard), e.choices))
  {
    var p := Parse(u).value;
    var mediaType := MediaTypeOf(userStatus, tree).value;
    MessageOutcome(u, tree, userStatus, plex, tmdb, tvdb, paginate, emojize);
    SearchOutcome(p.chatId, p.message.value, userStatus, tree, plex, tmdb, tvdb, paginate, emojize, mediaType);
  }

  /** After `plex://not-found` the title, with that marker removed, is searched online
      after a notice: on TMDB in the movie status, on TheTVDB otherwise. */
  lemma OnlineSearchAfterPlexMiss(u: Update, tree: ActionTree, userStatus: int, plex: Search, tmdb: Search, tvdb: Search,
                 paginate: (string, seq<Choice>) -> Json, emojize: string -> string)
    requires Parse(u).Ok? && !Rejected(Parse(u).value) && !Truthy(Parse(u).value.action)
    requires RouteOf(Parse(u).value.message.value, userStatus, tree) == Ok(SearchRoute)
    requires MediaTypeOf(userStatus, tree).Ok?
    requires StartsWith(Parse(u).value.message.value, PlexNotFound) && "online://results" in tree
    ensures var p := Parse(u).value;
      var title := ReplaceAll(p.message.value, PlexNotFound, "");
      var mediaType := MediaTypeOf(userStatus, tree).value;
      var hits := if mediaType == "movie" then tmdb(title, mediaType) else tvdb(title, mediaType);
      var keyboard := paginate(SearchBase(mediaType, title, false), ChoicesOf(hits, mediaType, emojize));
      var e := tree["online://results"];
      var n := if u.callback.Some? then 1 else 0;
      var a := Answer(u, tree, userStatus, plex, tmdb, tvdb, paginate, emojize);
      && a.result == Ok(NoContent)
      && |a.effects| > n + 1
      && a.effects[n] == SendText(p.chatId, OnlineNotice, None)
      && a.effects[n + 1] == SendText(p.chatId, e.message, PassedChoices(Some(keyboard), e.choices))
  {
    var p := Parse(u).value;
    var mediaType := MediaTypeOf(userStatus, tree).value;
    MessageOutcome(u, tree, userStatus, plex, tmdb, tvdb, paginate, emojize);
    var msg := p.message.value;
    var plan := PlanOf(msg);
    var title := ReplaceAll(msg, PlexNotFound, "");
    assert plan == SearchPlan("online://results", title, true);
    var hits := if mediaType == "movie" then tmdb(title, mediaType) else tvdb(title, mediaType);
    assert SearchKeyboard(msg, mediaType, plex, tmdb, tvdb, paginate, emojize)
      == paginate(SearchBase(mediaType, title, false), ChoicesOf(hits, mediaType, emojize));
    SearchOutcome(p.chatId, msg, userStatus, tree, plex, tmdb, tvdb, paginate, emojize, mediaType);
  }

  /** The reading part of `plexa_answer`: the callback answered at once, then
      `action`, `chat_id` and `message` assigned from the update, and a non-command
      action handed over as the message. */
  method ReadUpdate(u: Update) returns (answered: seq<Effect>, parsed: Result<Parsed>)
    requires u.message.Some? || u.callback.Some?
    ensures answered == if u.callback.Some? then [AnswerCallback(u.callback.value.id)] else []
    ensures parsed == Parse(u)
  {
    answered := [];
    var action: Option<string> := None;
    var chat := 0;
    var message: Option<string> := None;
    if u.callback.Some? {
      var cb := u.callback.value;
      answered := answered + [AnswerCallback(cb.id)];
      chat := cb.chatId;
      action := cb.data;
      if action.None? {
        parsed := Err(Crash);
        return;
      }
    } else {
      var m := u.message.value;
      chat := m.chatId;
      if m.text.None? {
        parsed := Err(Crash);
        return;
      }
      message := Some(Lower(Strip(m.text.value)));
      if m.entities.Some? {
        var commands := BotCommands(m.entities.value);
        if commands == [] {
          parsed := Err(Crash);
          return;
        }
        action := Some(CommandOf(m.text.value, commands[0]));
      }
    }
    if Truthy(action) && !StartsWith(action.value, "/") {
      message := action;
      action := None;
    }
    parsed := Ok(Parsed(action, chat, message));
  }

  /** The checks of `plexa_answer` on a message, in order; a tree without the key or
      status code a check reads raises. */
  method ChooseRoute(msg: string, userStatus: int, tree: ActionTree) returns (r: Result<Route>)
    ensures r == RouteOf(msg, userStatus, tree)
  {
    if HelpCommand !in tree || tree[HelpCommand].statusCode.None? {
      r := Err(Crash);
    } else if userStatus == tree[HelpCommand].statusCode.value {
      r := Ok(HelpRoute);
    } else if StartsWith(msg, "plex") && !Contains(msg, "not-found") {
      r := Ok(PlexFound);
    } else if FromOnlineProvider(msg) && !Contains(msg, "not-found") {
      r := Ok(OnlineFound);
    } else if StartsWith(msg, "online://not-found") {
      r := Ok(OnlineNotFound);
    } else if MissingCode(tree, SrcMovieCommand) || MissingCode(tree, SrcShowCommand) {
      r := Err(Crash);
    } else if HasCode(tree, SrcMovieCommand, userStatus) || HasCode(tree, SrcShowCommand, userStatus) {
      r := Ok(SearchRoute);
    } else {
      r := Ok(Unhandled);
    }
  }

  /** The message part of `plexa_answer`: the action chosen by the checks in order,
      the search run when the user is in a search status, then the reply and the
      status write. */
  method AnswerMessage(chat: int, msg: string, userStatus: int, tree: ActionTree,
                       plex: Search, tmdb: Search, tvdb: Search,
                       paginate: (string, seq<Choice>) -> Json, emojize: string -> string)
    returns (effects: seq<Effect>, r: Result<int>)
    ensures Outcome(effects, r) == MessageAnswer(chat, msg, userStatus, tree, plex, tmdb, tvdb, paginate, emojize)
  {
    var route := ChooseRoute(msg, userStatus, tree);
    if route.Err? {
      effects, r := [], Err(route.error);
    } else if route.value.SearchRoute? {
      effects, r := AnswerSearch(chat, msg, userStatus, tree, plex, tmdb, tvdb, paginate, emojize);
      assert MessageAnswer(chat, msg, userStatus, tree, plex, tmdb, tvdb, paginate, emojize)
        == SearchAnswer(chat, msg, userStatus, tree, plex, tmdb, tvdb, paginate, emojize);
    } else {
      var replies;
      replies, r := Reply(chat, RouteAction(route.value), None, tree);
      RoutedReply(chat, msg, userStatus, tree, plex, tmdb, tvdb, paginate, emojize, route.value);
      effects := replies;
    }
  }

  /** The search branch of a message: the media type read from the tree, the search
      run, then the reply of the search's action with its keyboard. */
  method AnswerSearch(chat: int, msg: string, userStatus: int, tree: ActionTree,
                      plex: Search, tmdb: Search, tvdb: Search,
                      paginate: (string, seq<Choice>) -> Json, emojize: string -> string)
    returns (effects: seq<Effect>, r: Result<int>)
    ensures Outcome(effects, r) == SearchAnswer(chat, msg, userStatus, tree, plex, tmdb, tvdb, paginate, emojize)
  {
    if SrcMovieCommand !in tree || tree[SrcMovieCommand].statusCode.None? {
      effects, r := [], Err(Crash);
      return;
    }
    var mediaType := if userStatus == tree[SrcMovieCommand].statusCode.value then "movie" else "show";
    assert MediaTypeOf(userStatus, tree) == Ok(mediaType);
    var action, keyboard;
    action, effects, keyboard := RunSearch(chat, msg, mediaType, plex, tmdb, tvdb, paginate, emojize);
    var replies;
    replies, r := Reply(chat, action, keyboard, tree);
    FinishAfter(effects, MessageReply(chat, action, keyboard, tree));
    effects := effects + replies;
  }

  /** A message routed away from the searches is answered by the reply of the route's action. */
  lemma RoutedReply(chat: int, msg: string, userStatus: int, tree: ActionTree,
                    plex: Search, tmdb: Search, tvdb: Search,
                    paginate: (string, seq<Choice>) -> Json, emojize: string -> string, route: Route)
    requires RouteOf(msg, userStatus, tree) == Ok(route) && !route.SearchRoute?
    ensures MessageAnswer(chat, msg, userStatus, tree, plex, tmdb, tvdb, paginate, emojize)
      == Finish([], MessageReply(chat, RouteAction(route), None, tree))
  {
  }

  /** What was sent before a reply comes first. */
  lemma FinishAfter(before: seq<Effect>, reply: Result<seq<Effect>>)
    ensures Finish(before, reply) == Outcome(before + Finish([], reply).effects, Finish([], reply).result)
  {
    assert before + [] == before;
  }

  /** The reply to a message: the entry's message, then its status code when it has one. */
  method Reply(chat: int, action: Option<string>, keyboard: Option<Json>, tree: ActionTree)
    returns (effects: seq<Effect>, r: Result<int>)
    ensures Outcome(effects, r) == Finish([], MessageReply(chat, action, keyboard, tree))
  {
    effects := [];
    if action.None? || action.value !in tree {
      r := Err(Crash);
      return;
    }
    var entry := tree[action.value];
    effects := effects + [SendText(chat, entry.message, PassedChoices(keyboard, entry.choices))];
    if entry.statusCode.Some? {
      effects := effects + [SetStatus(chat, entry.statusCode.value)];
    }
    r := Ok(NoContent);
  }

  /** The search branch: the Plex search, or (after `plex://not-found`) the notice and
      the online search of TMDB for movies and TheTVDB for shows; then the paginated
      keyboard of the results. */
  method RunSearch(chat: int, msg: string, mediaType: string, plex: Search, tmdb: Search, tvdb: Search,
                   paginate: (string, seq<Choice>) -> Json, emojize: string -> string)
    returns (action: Option<string>, effects: seq<Effect>, keyboard: Option<Json>)
    ensures action == Some(PlanOf(msg).action)
    ensures effects == if PlanOf(msg).online then [SendText(chat, OnlineNotice, None)] else []
    ensures keyboard == Some(SearchKeyboard(msg, mediaType, plex, tmdb, tvdb, paginate, emojize))
  {
    effects := [];
    var searchTitle := "";
    var plexHits: seq<Hit> := [];
    var onlineHits: seq<Hit> := [];
    if !StartsWith(msg, PlexNotFound) {
      action := Some("plex://results");
      searchTitle := msg;
      plexHits := plex(Strip(msg), mediaType);
    } else {
      action := Some("online://results");
      searchTitle := ReplaceAll(msg, PlexNotFound, "");
      effects := effects + [SendText(chat, OnlineNotice, None)];
      if mediaType == "movie" {
        onlineHits := tmdb(searchTitle, mediaType);
      } else {
        onlineHits := tvdb(searchTitle, mediaType);
      }
    }
    var hits := if plexHits != [] then plexHits else onlineHits;
    assert hits == if !StartsWith(msg, PlexNotFound) then plexHits else onlineHits;
    keyboard := Some(paginate(SearchBase(mediaType, searchTitle, plexHits != []), ChoicesOf(hits, mediaType, emojize)));
  }

  /** The command branch of `plexa_answer`: the tree entry of the command, or of
      `/help` when the tree lacks it, sent and its status code written. */
  method AnswerCommand(chat: int, action: string, tree: ActionTree) returns (effects: seq<Effect>, r: Result<int>)
    ensures Outcome(effects, r) == Finish([], CommandReply(chat, action, tree))
  {
    var key := action;
    if key !in tree {
      key := HelpCommand;
    }
    if key !in tree || tree[key].statusCode.None? {
      effects, r := [], Err(Crash);
      return;
    }
    effects := [SendText(chat, tree[key].message, Keyboard(tree[key].choices)),
                SetStatus(chat, tree[key].statusCode.value)];
    r := Ok(NoContent);
  }

  /** `plexa_answer`: 501 for an update with neither message nor callback query; else
      the update read and dispatched. */
  method PlexaAnswer(u: Update, tree: ActionTree, userStatus: int, plex: Search, tmdb: Search, tvdb: Search,
                     paginate: (string, seq<Choice>) -> Json, emojize: string -> string)
    returns (effects: seq<Effect>, r: Result<int>)
    ensures Outcome(effects, r) == Answer(u, tree, userStatus, plex, tmdb, tvdb, paginate, emojize)
  {
    effects := [];
    if u.message.None? && u.callback.None? {
      r := Err(NotImplemented);
      return;
    }
    var parsed;
    effects, parsed := ReadUpdate(u);
    if parsed.Err? {
      r := Err(parsed.error);
      return;
    }
    var replies;
    replies, r := AnswerParsed(parsed.value, tree, userStatus, plex, tmdb, tvdb, paginate, emojize);
    effects := effects + replies;
  }

  /** The rest of `plexa_answer` once `action`, `chat_id` and `message` are read. */
  method AnswerParsed(p: Parsed, tree: ActionTree, userStatus: int, plex: Search, tmdb: Search, tvdb: Search,
                      paginate: (string, seq<Choice>) -> Json, emojize: string -> string)
    returns (effects: seq<Effect>, r: Result<int>)
    ensures Outcome(effects, r) == Dispatch(p, tree, userStatus, plex, tmdb, tvdb, paginate, emojize)
  {
    var action, chat, message := p.action, p.chatId, p.message;
    if chat == 0 || (!Truthy(action) && !Truthy(message)) {
      effects, r := [], Err(InternalServerError);
    } else if Truthy(action) {
      effects, r := AnswerCommand(chat, action.value, tree);
    } else {
      effects, r := AnswerMessage(chat, message.value, userStatus, tree, plex, tmdb, tvdb, paginate, emojize);
    }
  }
}
