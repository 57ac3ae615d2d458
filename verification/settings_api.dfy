/** The settings route `/api/settings` (api/settings.ts): the single
    `notificationLevel` row of the `AppSettings` table, written by `POST`
    and read with a fallback by `GET`. The Telegram credentials come from
    the environment and are parameters. The route is not wrapped in
    `withAuth`. */
module SettingsApi {
  import opened Types
  import Blockchain

  /** The levels a `POST` accepts; `none`, which the settings form offers,
      is not among them. */
  const LEVELS := {FIRST, FIRST_TWO, ALL}

  const ALLOWED := ["GET", "POST"]

  /** `!notificationLevel || !['first', 'first_two', 'all'].includes(notificationLevel)` fails. */
  predicate Accepted(level: Option<string>)
  {
    Present(level) && level.value in LEVELS
  }

  /** The body of a `POST`: none at all, which makes the destructuring of
      `req.body` throw, or a JSON object with an optional `notificationLevel`. */
  datatype PostBody = NoBody | Json(notificationLevel: Option<string>)

  /** Which store statement throws: the `CREATE TABLE` or the upsert of a
      `POST`, or the read of a `GET` with an error other than the table being
      missing. */
  datatype Fault = NoFault | CreateFails | WriteFails | ReadFails

  /** The `AppSettings` table as far as the route sees it. */
  datatype Store = Store(tableExists: bool, level: Option<string>)

  /** Only this route writes the table, so a stored level is one it accepted. */
  predicate Consistent(s: Store)
  {
    s.level.Some? ==> s.tableExists && s.level.value in LEVELS
  }

  /** The level a `GET` reports: the stored one, else `first`; a missing
      table reads as no row. */
  function Reported(s: Store): string
  {
    if s.tableExists && s.level.Some? then s.level.value else FIRST
  }

  datatype Outcome = Outcome(response: Response, store: Store)

  /** `handler`, given the request method, the posted body, the two
      environment variables and which statement (if any) throws. */
  function Handled(s: Store, m: Method, body: PostBody,
                   chatId: Option<string>, botToken: Option<string>, fault: Fault): (o: Outcome)
    ensures m == Post && body.NoBody? ==> o == Outcome(Response(500, Message), s)
    ensures m == Post ==> (o.response.code == 400 <==> body.Json? && !Accepted(body.notificationLevel))
    ensures m == Post ==>
              (o.response.code == 200 <==>
                 body.Json? && Accepted(body.notificationLevel) && !fault.CreateFails? && !fault.WriteFails?)
    ensures m == Post && body.Json? && Accepted(body.notificationLevel) && (fault.CreateFails? || fault.WriteFails?) ==>
              o.response == Response(500, Message)
    ensures m == Post && o.response.code == 200 ==> o.store == Store(true, body.notificationLevel)
    ensures m == Post && o.response.code != 200 ==> o.store.level == s.level
    ensures m == Get ==> o.store == s
    ensures m == Get ==> (o.response.code == 404 <==> !Present(chatId) || !Present(botToken))
    ensures m == Get ==> (o.response.code == 200 <==> Present(chatId) && Present(botToken) && !fault.ReadFails?)
    ensures m == Get && Present(chatId) && Present(botToken) && fault.ReadFails? ==> o.response.code == 500
    ensures m == Get && o.response.code == 200 ==>
              o.response.body == Settings(chatId.value, botToken.value, Reported(s))
    ensures m == Get && o.response.code != 200 ==> o.response.body == Message
    ensures m == Delete || m.OtherMethod? ==> o == Outcome(Response(405, NotAllowed(ALLOWED)), s)
    ensures Consistent(s) ==> Consistent(o.store)
  {
    match m
    case Post =>
      if body.NoBody? then Outcome(Response(500, Message), s)
      else if !Accepted(body.notificationLevel) then Outcome(Response(400, Message), s)
      else if fault.CreateFails? then Outcome(Response(500, Message), s)
      else if fault.WriteFails? then Outcome(Response(500, Message), s.(tableExists := true))
      else Outcome(Response(200, Message), Store(true, body.notificationLevel))
    case Get =>
      if !Present(chatId) || !Present(botToken) then Outcome(Response(404, Message), s)
      else if fault.ReadFails? then Outcome(Response(500, Message), s)
      else Outcome(Response(200, Settings(chatId.value, botToken.value, Reported(s))), s)
    case Delete => Outcome(Response(405, NotAllowed(ALLOWED)), s)
    case OtherMethod(_) => Outcome(Response(405, NotAllowed(ALLOWED)), s)
  }

  /** A saved level is what the next readable `GET` reports. */
  lemma PostThenGet(s: Store, level: string, chatId: Option<string>, botToken: Option<string>,
                    c1: Option<string>, t1: Option<string>, readFault: Fault)
    requires Accepted(Some(level)) && Present(chatId) && Present(botToken) && !readFault.ReadFails?
    ensures var saved := Handled(s, Post, Json(Some(level)), c1, t1, NoFault).store;
            Handled(saved, Get, NoBody, chatId, botToken, readFault).response
            == Response(200, Settings(chatId.value, botToken.value, level))
  {
  }

  /** Of two saves, the later one wins. */
  lemma LastWriteWins(s: Store, a: string, b: string, env: Option<string>)
    requires Accepted(Some(a)) && Accepted(Some(b))
    ensures var once := Handled(s, Post, Json(Some(a)), env, env, NoFault).store;
            Handled(once, Post, Json(Some(b)), env, env, NoFault).store
            == Handled(s, Post, Json(Some(b)), env, env, NoFault).store
  {
  }

  /** Every level a `GET` of a consistent store reports is one the
      reconciliation pass alerts on: never the silent policy. */
  lemma ReportedLevelAlerts(s: Store, chatId: Option<string>, botToken: Option<string>, fault: Fault)
    requires Consistent(s)
    ensures var o := Handled(s, Get, NoBody, chatId, botToken, fault);
            o.response.code == 200 ==>
              Blockchain.PolicyOf(o.response.body.notificationLevel) != Blockchain.Silent
  {
  }

  /** The `AppSettings` table, updated in place by the route. */
  class SettingsStore {
    var tableExists: bool
    var level: Option<string>

    ghost predicate Valid()
      reads this
    {
      Consistent(Store(tableExists, level))
    }

    constructor ()
      ensures Valid() && !tableExists && level == None
    {
      tableExists := false;
      level := None;
    }

    method Handle(m: Method, body: PostBody, chatId: Option<string>,
                  botToken: Option<string>, fault: Fault) returns (r: Response)
      requires Valid()
      modifies this
      ensures Valid()
      ensures Outcome(r, Store(tableExists, level))
              == Handled(old(Store(tableExists, level)), m, body, chatId, botToken, fault)
    {
      if m == Post {
        if body.NoBody? {
          return Response(500, Message);
        }
        if !Accepted(body.notificationLevel) {
          return Response(400, Message);
        }
        if fault.CreateFails? {
          return Response(500, Message);
        }
        tableExists := true;
        if fault.WriteFails? {
          return Response(500, Message);
        }
        level := body.notificationLevel;
        return Response(200, Message);
      }
      if m == Get {
        if !Present(chatId) || !Present(botToken) {
          return Response(404, Message);
        }
        if fault.ReadFails? {
          return Response(500, Message);
        }
        var reported := FIRST;
        if tableExists && level.Some? {
          reported := level.value;
        }
        return Response(200, Settings(chatId.value, botToken.value, reported));
      }
      r := Response(405, NotAllowed(ALLOWED));
    }
  }
}
