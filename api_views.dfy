/** `yacut/api_views.py`: the JSON API. `POST /api/id/` validates the body and
    the optional `custom_id`, then hands both to `create_short_link`;
    `GET /api/id/<short_id>/` looks a code up. Exceptions that escape a view
    become the generic 500 answer of the application's error handler. */
module ApiViews {
  import opened Wrappers
  import opened Text
  import opened Codes
  import opened Store
  import Models
  import Shortener
  import UrlParse

  /** The default `attempts` of `create_short_link`, which `add_url` uses. */
  const ATTEMPTS: int := 32
  /** The longest `custom_id` the view accepts. */
  const MAX_CUSTOM_LEN: nat := 16

  /** A decoded JSON document, as `request.get_json` hands it to the view. */
  datatype Json =
    | JNull
    | JBool(b: bool)
    | JNumber(n: real)
    | JString(s: string)
    | JArray(items: seq<Json>)
    | JObject(fields: map<string, Json>)

  /** Python's `bool()` of a decoded JSON value. */
  predicate Truthy(j: Json) {
    match j
    case JNull => false
    case JBool(b) => b
    case JNumber(n) => n != 0.0
    case JString(s) => s != ""
    case JArray(items) => items != []
    case JObject(fields) => fields != map[]
  }

  /** The messages of the `InvalidAPIUsage` errors the views raise. */
  datatype Message = MissingBody | UrlRequired | InvalidName | NameTaken | IdNotFound

  function MessageText(m: Message): string {
    match m
    case MissingBody => "Отсутствует тело запроса"
    case UrlRequired => "\"url\" является обязательным полем!"
    case InvalidName => "Указано недопустимое имя для короткой ссылки"
    case NameTaken => "Предложенный вариант короткой ссылки уже существует."
    case IdNotFound => "Указанный id не найден"
  }

  /** What a view answers: the 201 of `add_url` (the stored original and
      the code the short link is built from), the 200 of `get_original_url`,
      an `InvalidAPIUsage` with status 400 or 404, or the 500 of the error
      handler for any other exception. */
  datatype ApiResponse =
    | Created(url: string, short: string)
    | Found(url: string)
    | BadRequest(message: Message)
    | NotFound(message: Message)
    | InternalError

  function Status(r: ApiResponse): nat {
    match r
    case Created(_, _) => 201
    case Found(_) => 200
    case BadRequest(_) => 400
    case NotFound(_) => 404
    case InternalError => 500
  }

  /** Where the checks of `add_url` end: an answer, or the arguments it
      passes to `create_short_link`. */
  datatype Decision =
    | Reject(response: ApiResponse)
    | Proceed(url: Option<string>, custom: Option<string>)

  /** `'url' in data` for each kind of body: a key of an object, an element
      of an array, a substring of a string; `None` for the `TypeError` a
      boolean or a number raises. */
  function UrlKeyTest(data: Json): (t: Option<bool>)
    ensures data.JObject? ==> t == Some("url" in data.fields)
    ensures t.None? <==> data.JBool? || data.JNumber? || data.JNull?
  {
    match data
    case JObject(fields) => Some("url" in fields)
    case JArray(items) => Some(JString("url") in items)
    case JString(s) => Some(Contains(s, "url"))
    case _ => None
  }

  /** `data.get('custom_id')`, stripped when it is a string and `None` when
      it is then falsy. */
  function CustomId(fields: map<string, Json>): (c: Option<Json>)
    ensures c.Some? ==> Truthy(c.value)
    ensures c.Some? && !c.value.JString? ==> "custom_id" in fields && c.value == fields["custom_id"]
    ensures c.Some? && c.value.JString? ==>
      "custom_id" in fields && fields["custom_id"].JString?
      && c.value.s == Strip(fields["custom_id"].s)
    ensures c.None? <==>
      "custom_id" !in fields || !Truthy(fields["custom_id"])
      || (fields["custom_id"].JString? && Strip(fields["custom_id"].s) == "")
  {
    var raw := if "custom_id" in fields then fields["custom_id"] else JNull;
    var value := if raw.JString? then JString(Strip(raw.s)) else raw;
    if Truthy(value) then Some(value) else None
  }

  /** The checks `add_url` makes of a truthy `custom_id`: length and
      characters, the reserved `files` in any case, then a lookup. A list or
      an object no longer than 16 reaches `re.fullmatch`, and a boolean or a
      number reaches `len`, which raise `TypeError`. */
  function CheckCustom(rows: map<string, string>, custom: Option<Json>)
    : (r: Result<Option<string>, ApiResponse>)
    ensures r.Ok? && r.value.Some? ==>
      && custom == Some(JString(r.value.value))
      && Models.IsShortFormat(r.value.value)
      && !Models.IsReserved(r.value.value)
      && r.value.value !in rows
    ensures r.Ok? && r.value.None? <==> custom.None?
    ensures r.Err? ==> r.error in {BadRequest(InvalidName), BadRequest(NameTaken), InternalError}
    ensures custom.Some? && custom.value.JString? ==>
      var s := custom.value.s;
      && (r == Ok(Some(s)) <==> Models.IsShortFormat(s) && !Models.IsReserved(s) && s !in rows)
      && (r == Err(BadRequest(InvalidName)) <==> !Models.IsShortFormat(s) || Models.IsReserved(s))
      && (r == Err(BadRequest(NameTaken)) <==>
            Models.IsShortFormat(s) && !Models.IsReserved(s) && s in rows)
    ensures custom.Some? && custom.value.JArray? ==>
      && (r == Err(BadRequest(InvalidName)) <==> |custom.value.items| > MAX_CUSTOM_LEN)
      && (r == Err(InternalError) <==> |custom.value.items| <= MAX_CUSTOM_LEN)
    ensures custom.Some? && custom.value.JObject? ==>
      && (r == Err(BadRequest(InvalidName)) <==> |custom.value.fields| > MAX_CUSTOM_LEN)
      && (r == Err(InternalError) <==> |custom.value.fields| <= MAX_CUSTOM_LEN)
    ensures custom.Some? && (custom.value.JNull? || custom.value.JBool? || custom.value.JNumber?) ==>
      r == Err(InternalError)
  {
    match custom
    case None => Ok(None)
    case Some(JString(s)) =>
      if |s| > MAX_CUSTOM_LEN || s == "" || !AllAlnum(s) then Err(BadRequest(InvalidName))
      else if Lower(s) == "files" then Err(BadRequest(InvalidName))
      else if s in rows then Err(BadRequest(NameTaken))
      else Ok(Some(s))
    case Some(JArray(items)) =>
      if |items| > MAX_CUSTOM_LEN then Err(BadRequest(InvalidName)) else Err(InternalError)
    case Some(JObject(fields)) =>
      if |fields| > MAX_CUSTOM_LEN then Err(BadRequest(InvalidName)) else Err(InternalError)
    case Some(_) => Err(InternalError)
  }

  /** `data['url']` as `normalize_url` receives it: a string as it is, a
      falsy value as the empty text `(url or "")` makes of it; `.strip()` on
      any other value raises `AttributeError`. */
  function UrlArgument(url: Json): (r: Result<Option<string>, ApiResponse>)
    ensures r.Ok? && r.value.Some? <==> url.JString?
    ensures r.Ok? && r.value.Some? ==> r.value.value == url.s
    ensures r.Err? <==> !url.JString? && Truthy(url)
    ensures r.Err? ==> r.error == InternalError
  {
    if url.JString? then Ok(Some(url.s))
    else if !Truthy(url) then Ok(None)
    else Err(InternalError)
  }

  /** The part of `add_url` before `create_short_link`, in the order of the
      view: the body, the `url` key, `custom_id`, then the URL value. A
      rejection is a 400 with one of the view's messages or a 500; the view
      proceeds only with an object holding `url`. */
  function Decide(rows: map<string, string>, data: Option<Json>): (d: Decision)
    ensures data.None? || data == Some(JNull) ==> d == Reject(BadRequest(MissingBody))
    ensures d.Reject? ==>
      d.response in {BadRequest(MissingBody), BadRequest(UrlRequired), BadRequest(InvalidName),
                     BadRequest(NameTaken), InternalError}
    ensures d.Proceed? ==> data.Some? && data.value.JObject? && "url" in data.value.fields
    ensures data.Some? && data.value.JObject? && "url" !in data.value.fields ==>
      d == Reject(BadRequest(UrlRequired))
  {
    if data.None? || data.value.JNull? then Reject(BadRequest(MissingBody))
    else match UrlKeyTest(data.value)
      case None => Reject(InternalError)
      case Some(false) => Reject(BadRequest(UrlRequired))
      case Some(true) =>
        if !data.value.JObject? then Reject(InternalError)
        else
          var fields := data.value.fields;
          match CheckCustom(rows, CustomId(fields))
          case Err(response) => Reject(response)
          case Ok(custom) =>
            match UrlArgument(fields["url"])
            case Err(response) => Reject(response)
            case Ok(url) => Proceed(url, custom)
  }

  /** The answer of `create_short_link`'s result as the view sees it: any
      exception it raises (`ValueError`, `IntegrityError`, `RuntimeError`)
      is not caught and becomes the 500 answer. */
  function FromLink(r: Result<Mapping, Shortener.LinkError>): Result<Mapping, ApiResponse> {
    match r
    case Ok(m) => Ok(m)
    case Err(_) => Err(InternalError)
  }

  /** What `add_url` does to a table: the row it creates, or the answer
      it gives instead. */
  function AddUrlOutcome(rows: map<string, string>, data: Option<Json>,
                         draws: seq<Index>, races: set<nat>): Result<Mapping, ApiResponse>
    requires Shortener.SHORT_URL_LENGTH * ATTEMPTS <= |draws|
  {
    match Decide(rows, data)
    case Reject(response) => Err(response)
    case Proceed(url, custom) =>
      FromLink(Shortener.ShortLinkOutcome(rows, url, custom, ATTEMPTS, draws, races))
  }

  /** The answer of `add_url`: 201 with the created row, or the error. */
  function Respond(r: Result<Mapping, ApiResponse>): ApiResponse {
    match r
    case Ok(m) => Created(m.original, m.short)
    case Err(response) => response
  }

  /** A missing, unparsable or `null` body, and an object without `url`, are
      answered with 400 before the table or the generator is consulted; a
      body that is not an object never creates a row. */
  lemma EarlyRejections(rows: map<string, string>, data: Option<Json>,
                        draws: seq<Index>, races: set<nat>)
    requires Shortener.SHORT_URL_LENGTH * ATTEMPTS <= |draws|
    ensures var r := AddUrlOutcome(rows, data, draws, races);
      && (data.None? || data == Some(JNull) ==> r == Err(BadRequest(MissingBody)))
      && (data.Some? && data.value.JObject? && "url" !in data.value.fields ==>
            r == Err(BadRequest(UrlRequired)))
      && (data.Some? && !data.value.JObject? ==>
            r.Err? && r.error in {BadRequest(MissingBody), BadRequest(UrlRequired), InternalError})
  {
  }

  /** Every 400 answer comes from the checks of the view, never from
      `create_short_link`: it is the same whatever the generator draws and
      whichever commits lose, and it leaves the table as it was. */
  lemma BadRequestBeforeAllocation(rows: map<string, string>, data: Option<Json>,
                                   draws1: seq<Index>, races1: set<nat>,
                                   draws2: seq<Index>, races2: set<nat>)
    requires Shortener.SHORT_URL_LENGTH * ATTEMPTS <= |draws1|
    requires Shortener.SHORT_URL_LENGTH * ATTEMPTS <= |draws2|
    ensures var r1 := AddUrlOutcome(rows, data, draws1, races1);
      var r2 := AddUrlOutcome(rows, data, draws2, races2);
      && (r1.Err? && r1.error.BadRequest? ==> r2 == r1)
      && (r1.Err? && r1.error.BadRequest? ==> Decide(rows, data) == Reject(r1.error))
  {
  }

  /** A missing, `null`, blank or otherwise falsy `custom_id` sends a string
      `url` to the generated path: the answer is `create_short_link`'s with
      no custom slug, and a created code is six ASCII letters or digits. */
  lemma BlankCustomIsGenerated(rows: map<string, string>, fields: map<string, Json>, url: string,
                               draws: seq<Index>, races: set<nat>)
    requires Shortener.SHORT_URL_LENGTH * ATTEMPTS <= |draws|
    requires "url" in fields && fields["url"] == JString(url)
    requires "custom_id" !in fields || !Truthy(fields["custom_id"])
             || (fields["custom_id"].JString? && Strip(fields["custom_id"].s) == "")
    ensures var r := AddUrlOutcome(rows, Some(JObject(fields)), draws, races);
      && r == FromLink(Shortener.ShortLinkOutcome(rows, Some(url), None, ATTEMPTS, draws, races))
      && (r.Ok? ==> |r.value.short| == Shortener.SHORT_URL_LENGTH && AllAlnum(r.value.short))
  {
    Shortener.ShortLinkSuccess(rows, Some(url), None, ATTEMPTS, draws, races);
  }

  /** A `custom_id` string is judged after stripping: too long or with a
      character other than an ASCII letter or digit, it is refused as an
      invalid name; so is `files` in any letter case, even when a row named
      `files` exists. */
  lemma InvalidCustomRejected(rows: map<string, string>, fields: map<string, Json>, slug: string,
                              draws: seq<Index>, races: set<nat>)
    requires Shortener.SHORT_URL_LENGTH * ATTEMPTS <= |draws|
    requires "url" in fields && "custom_id" in fields && fields["custom_id"] == JString(slug)
    requires Strip(slug) != ""
    requires !Models.IsShortFormat(Strip(slug)) || Models.IsReserved(Strip(slug))
    ensures AddUrlOutcome(rows, Some(JObject(fields)), draws, races) == Err(BadRequest(InvalidName))
  {
    CustomDecision(rows, fields, slug);
  }

  /** A well-formed, unreserved `custom_id` that is already stored is
      refused with the "already exists" message; one that is free is what
      a created row is stored under. */
  lemma TakenCustomRejected(rows: map<string, string>, fields: map<string, Json>, slug: string,
                            draws: seq<Index>, races: set<nat>)
    requires Shortener.SHORT_URL_LENGTH * ATTEMPTS <= |draws|
    requires "url" in fields && "custom_id" in fields && fields["custom_id"] == JString(slug)
    requires Models.IsShortFormat(Strip(slug)) && !Models.IsReserved(Strip(slug))
    ensures var r := AddUrlOutcome(rows, Some(JObject(fields)), draws, races);
      && (Strip(slug) in rows ==> r == Err(BadRequest(NameTaken)))
      && (r.Ok? ==> r.value.short == Strip(slug))
  {
    CustomDecision(rows, fields, slug);
    var d := Decide(rows, Some(JObject(fields)));
    if d.Proceed? {
      Shortener.ShortLinkSuccess(rows, d.url, d.custom, ATTEMPTS, draws, races);
    }
  }

  /** How `add_url` judges a non-blank `custom_id` string. */
  lemma CustomDecision(rows: map<string, string>, fields: map<string, Json>, slug: string)
    requires "url" in fields && "custom_id" in fields && fields["custom_id"] == JString(slug)
    requires Strip(slug) != ""
    ensures var t := Strip(slug);
      var d := Decide(rows, Some(JObject(fields)));
      && (!Models.IsShortFormat(t) ==> d == Reject(BadRequest(InvalidName)))
      && (Models.IsShortFormat(t) && Models.IsReserved(t) ==> d == Reject(BadRequest(InvalidName)))
      && (Models.IsShortFormat(t) && !Models.IsReserved(t) && t in rows ==>
            d == Reject(BadRequest(NameTaken)))
      && (d.Proceed? ==> d.custom == Some(t))
  {
    var t := Strip(slug);
    assert CustomId(fields) == Some(JString(t));
    if Models.IsShortFormat(t) {
      assert Models.IsReserved(t) <==> Lower(t) == "files";
    }
  }

  /** A well-formed, unreserved, free `custom_id` with a `url` that
      normalises is stored under the stripped id, holding the normalised URL,
      unless its single commit loses a race. */
  lemma FreeCustomCreated(rows: map<string, string>, fields: map<string, Json>, url: string, slug: string,
                          draws: seq<Index>, races: set<nat>)
    requires Shortener.SHORT_URL_LENGTH * ATTEMPTS <= |draws|
    requires "url" in fields && fields["url"] == JString(url)
    requires "custom_id" in fields && fields["custom_id"] == JString(slug)
    requires Shortener.NormalizeUrl(Some(url)).Ok?
    requires Models.IsShortFormat(Strip(slug)) && !Models.IsReserved(Strip(slug)) && Strip(slug) !in rows
    requires 0 !in races
    ensures AddUrlOutcome(rows, Some(JObject(fields)), draws, races)
         == Ok(Mapping(Strip(slug), Shortener.NormalizeUrl(Some(url)).value))
  {
    FreeCustomProceeds(rows, fields, url, slug);
    Shortener.CustomSlugVerbatim(rows, Some(url), Strip(slug), ATTEMPTS, draws, races);
  }

  /** The checks of `add_url` pass a well-formed, unreserved, free
      `custom_id` on stripped, together with a string `url`. */
  lemma FreeCustomProceeds(rows: map<string, string>, fields: map<string, Json>, url: string, slug: string)
    requires "url" in fields && fields["url"] == JString(url)
    requires "custom_id" in fields && fields["custom_id"] == JString(slug)
    requires Models.IsShortFormat(Strip(slug)) && !Models.IsReserved(Strip(slug)) && Strip(slug) !in rows
    ensures Decide(rows, Some(JObject(fields))) == Proceed(Some(url), Some(Strip(slug)))
  {
    var t := Strip(slug);
    assert CustomId(fields) == Some(JString(t));
    assert CheckCustom(rows, Some(JString(t))) == Ok(Some(t));
  }

  /** A 201 answer: the body was an object whose `url` normalises, the row
      stores the normalised URL under a code that was free, has the format of
      `SHORT_RE` and is not reserved. */
  lemma AddUrlSuccess(rows: map<string, string>, data: Option<Json>,
                      draws: seq<Index>, races: set<nat>)
    requires Shortener.SHORT_URL_LENGTH * ATTEMPTS <= |draws|
    ensures var r := AddUrlOutcome(rows, data, draws, races);
      r.Ok? ==>
        && data.Some? && data.value.JObject? && "url" in data.value.fields
        && Shortener.NormalizeUrl(UrlArgument(data.value.fields["url"]).value) == Ok(r.value.original)
        && r.value.short !in rows
        && Models.IsShortFormat(r.value.short) && !Models.IsReserved(r.value.short)
        && Respond(r) == Created(r.value.original, r.value.short)
        && Status(Respond(r)) == 201
  {
    var d := Decide(rows, data);
    if d.Proceed? {
      DecideProceed(rows, data);
      LinkSuccess(rows, d.url, d.custom, draws, races);
    }
  }

  /** What `create_short_link` creates from arguments that passed the
      checks of `add_url`. */
  lemma LinkSuccess(rows: map<string, string>, url: Option<string>, custom: Option<string>,
                    draws: seq<Index>, races: set<nat>)
    requires Shortener.SHORT_URL_LENGTH * ATTEMPTS <= |draws|
    requires custom.Some? ==>
      Models.IsShortFormat(custom.value) && !Models.IsReserved(custom.value) && custom.value !in rows
    ensures var link := Shortener.ShortLinkOutcome(rows, url, custom, ATTEMPTS, draws, races);
      link.Ok? ==>
        && Shortener.NormalizeUrl(url) == Ok(link.value.original)
        && link.value.short !in rows
        && Models.IsShortFormat(link.value.short) && !Models.IsReserved(link.value.short)
  {
    Shortener.ShortLinkSuccess(rows, url, custom, ATTEMPTS, draws, races);
    var link := Shortener.ShortLinkOutcome(rows, url, custom, ATTEMPTS, draws, races);
    if link.Ok? && !Shortener.Truthy(custom) {
      Models.GeneratedNotReserved(link.value.short);
    }
  }

  /** When the checks of `add_url` pass, the body is an object with a `url`
      whose value is passed on, and a custom slug passed on is well formed,
      not reserved and not stored. */
  lemma DecideProceed(rows: map<string, string>, data: Option<Json>)
    ensures var d := Decide(rows, data);
      d.Proceed? ==>
        && data.Some? && data.value.JObject? && "url" in data.value.fields
        && UrlArgument(data.value.fields["url"]) == Ok(d.url)
        && (d.custom.Some? ==>
              && Models.IsShortFormat(d.custom.value) && !Models.IsReserved(d.custom.value)
              && d.custom.value !in rows)
  {
  }

  /** Unlike `create_short_link` on its own, `add_url` keeps the table
      invariant of `URLMap`: every code well formed and not reserved, every
      original an http(s) URL with a host. */
  lemma AddUrlPreservesWellFormed(rows: map<string, string>, data: Option<Json>,
                                  draws: seq<Index>, races: set<nat>)
    requires Shortener.SHORT_URL_LENGTH * ATTEMPTS <= |draws|
    requires Models.WellFormed(rows)
    ensures Models.WellFormed(AfterCreate(rows, AddUrlOutcome(rows, data, draws, races)))
  {
    var r := AddUrlOutcome(rows, data, draws, races);
    if r.Ok? {
      AddUrlSuccess(rows, data, draws, races);
      var after := AfterCreate(rows, r);
      forall k | k in after
        ensures Models.IsShortFormat(k) && !Models.IsReserved(k) && UrlParse.IsHttpUrl(after[k])
      {
        if k != r.value.short {
          assert k in rows;
        }
      }
    }
  }

  /** `get_original_url`: the row stored under exactly `short_id` (no
      stripping, no format check), else 404. */
  function GetOriginalUrl(rows: map<string, string>, shortId: string): (r: ApiResponse)
    ensures r.Found? <==> shortId in rows
    ensures r.Found? ==> r.url == rows[shortId] && Status(r) == 200
    ensures !r.Found? ==> r == NotFound(IdNotFound) && Status(r) == 404
  {
    if shortId in rows then Found(rows[shortId]) else NotFound(IdNotFound)
  }

  /** The code of a 201 answer finds its row through both lookups: the API's
      exact one and `URLMap.get_by_short`. */
  lemma AddUrlThenGet(rows: map<string, string>, data: Option<Json>,
                      draws: seq<Index>, races: set<nat>)
    requires Shortener.SHORT_URL_LENGTH * ATTEMPTS <= |draws|
    ensures var r := AddUrlOutcome(rows, data, draws, races);
      var after := AfterCreate(rows, r);
      r.Ok? ==>
        && GetOriginalUrl(after, r.value.short) == Found(r.value.original)
        && Models.GetByShort(after, Some(r.value.short)) == Some(r.value)
  {
    var r := AddUrlOutcome(rows, data, draws, races);
    if r.Ok? {
      AddUrlSuccess(rows, data, draws, races);
      Models.ShortFormatTrimmed(r.value.short);
    }
  }

  /** On a well-formed table the two lookups agree on codes without
      surrounding whitespace. */
  lemma LookupsAgreeOnTrimmed(rows: map<string, string>, shortId: string)
    requires Models.WellFormed(rows) && IsTrimmed(shortId)
    ensures GetOriginalUrl(rows, shortId).Found? <==> Models.GetByShort(rows, Some(shortId)).Some?
    ensures GetOriginalUrl(rows, shortId).Found? ==>
      Models.GetByShort(rows, Some(shortId)) == Some(Mapping(shortId, GetOriginalUrl(rows, shortId).url))
  {
    StripTrimmed(shortId);
    assert Strip(Some(shortId).GetOr("")) == shortId;
    var g := Models.GetByShort(rows, Some(shortId));
    if shortId in rows {
      assert Models.IsShortFormat(shortId);
      assert g == Some(Mapping(shortId, rows[shortId]));
    } else {
      assert g.None?;
    }
  }

  /** The API does not strip its argument: a code padded with whitespace is
      404 there, while `get_by_short` finds the stored code. */
  lemma PaddedIdNotFound(rows: map<string, string>, shortId: string)
    requires Models.WellFormed(rows)
    requires Strip(shortId) in rows && shortId !in rows
    ensures GetOriginalUrl(rows, shortId) == NotFound(IdNotFound)
    ensures Models.GetByShort(rows, Some(shortId)) == Some(Mapping(Strip(shortId), rows[Strip(shortId)]))
  {
  }

  /** `add_url`. */
  method AddUrl(table: Table, data: Option<Json>, draws: seq<Index>, races: set<nat>)
    returns (response: ApiResponse)
    requires Shortener.SHORT_URL_LENGTH * ATTEMPTS <= |draws|
    modifies table
    ensures response == Respond(AddUrlOutcome(old(table.rows), data, draws, races))
    ensures table.rows == AfterCreate(old(table.rows), AddUrlOutcome(old(table.rows), data, draws, races))
  {
    var decision := Decide(table.rows, data);
    if decision.Reject? {
      return decision.response;
    }
    var link := Shortener.CreateShortLink(table, decision.url, decision.custom, ATTEMPTS, draws, races);
    if link.Err? {
      return InternalError;
    }
    return Created(link.value.original, link.value.short);
  }
}
