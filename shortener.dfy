/** `yacut/shortener.py`: the second URL normaliser, which decides by the
    parsed scheme instead of by the presence of `://`, and
    `create_short_link`, the allocator the JSON API uses. It stores a custom
    slug verbatim and retries the generated path after a lost commit. */
module Shortener {
  import opened Wrappers
  import opened Text
  import opened UrlParse
  import opened Codes
  import opened Store
  import Models

  /** Length of a generated code (`SHORT_URL_LENGTH`). */
  const SHORT_URL_LENGTH: nat := 6

  /** `ValueError` from `normalize_url`, the `IntegrityError` a custom slug's
      commit lets through, and the `RuntimeError` raised when every attempt
      failed. */
  datatype LinkError = InvalidUrl | IntegrityViolation | GenerationFailed

  /** The text `normalize_url` checks: `https:` before a leading `//`, then
      `https://` when the text has no parsed scheme. */
  function Candidate(raw: string): string {
    var url := if StartsWith(raw, "//") then "https:" + raw else raw;
    if Parse(url).scheme == "" then "https://" + url else url
  }

  lemma CandidateShape(raw: string)
    requires IsTrimmed(raw)
    ensures var c := Candidate(raw);
      && (c == raw || c == "https:" + raw || c == "https://" + raw)
      && IsTrimmed(c)
  {
    var url := if StartsWith(raw, "//") then "https:" + raw else raw;
    if StartsWith(raw, "//") {
      assert url == "https" + ":" + raw;
      LowerSchemeLiteral("https");
      ParseWithScheme("https", raw);
      assert url[0] == 'h' && url[|url| - 1] == raw[|raw| - 1];
    } else if Parse(url).scheme == "" {
      var c := "https://" + url;
      assert c[0] == 'h';
      assert raw != [] ==> c[|c| - 1] == raw[|raw| - 1];
    }
  }

  /** `normalize_url`: strips the input (`None` counts as empty), turns
      `//host` into `https://host`, prefixes `https://` when the text has no
      parsed scheme, and accepts the result only when it parses as an
      http(s) URL with a host. A successful result is the stripped input with
      one of three prefixes and has no surrounding whitespace. */
  function NormalizeUrl(url: Option<string>): (r: Result<string, LinkError>)
    ensures r.Err? ==> r.error == InvalidUrl
    ensures r.Ok? ==> IsHttpUrl(r.value) && IsTrimmed(r.value)
    ensures r.Ok? ==>
      var raw := Strip(url.GetOr(""));
      r.value == raw || r.value == "https:" + raw || r.value == "https://" + raw
  {
    var raw := Strip(url.GetOr(""));
    CandidateShape(raw);
    var candidate := Candidate(raw);
    if IsHttpUrl(candidate) then Ok(candidate) else Err(InvalidUrl)
  }

  /** On text with no surrounding whitespace, `normalize_url` is the http(s)
      check of the prefixed text. */
  lemma NormalizeTrimmed(raw: string)
    requires IsTrimmed(raw)
    ensures NormalizeUrl(Some(raw)) == if IsHttpUrl(Candidate(raw)) then Ok(Candidate(raw)) else Err(InvalidUrl)
  {
    StripTrimmed(raw);
  }

  /** The strings `normalize_url` returns unchanged are exactly the trimmed
      http(s) URLs with a host. */
  lemma {:induction false} NormalizeUrlFixedPoints(u: string)
    ensures NormalizeUrl(Some(u)) == Ok(u) <==> IsTrimmed(u) && IsHttpUrl(u)
  {
    if IsTrimmed(u) && IsHttpUrl(u) {
      StripTrimmed(u);
      Models.HttpUrlShape(u);
      assert Candidate(u) == u;
    }
  }

  /** Normalising a normalised URL returns it unchanged. */
  lemma NormalizeUrlIdempotent(url: Option<string>)
    requires NormalizeUrl(url).Ok?
    ensures NormalizeUrl(Some(NormalizeUrl(url).value)) == NormalizeUrl(url)
  {
    NormalizeUrlFixedPoints(NormalizeUrl(url).value);
  }

  /** Where both normalisers accept an input they return the same URL: the
      two tests for "has a scheme" only disagree on inputs one of them then
      rejects. */
  lemma NormalizersAgree(url: Option<string>)
    requires Models.NormalizeUrl(url).Ok? && NormalizeUrl(url).Ok?
    ensures Models.NormalizeUrl(url).value == NormalizeUrl(url).value
  {
    var raw := Strip(url.GetOr(""));
    var u := if StartsWith(raw, "//") then "https:" + raw else raw;
    assert Models.Prefixed(raw) == if Contains(u, "://") then u else "https://" + u;
    assert Candidate(raw) == if Parse(u).scheme == "" then "https://" + u else u;
    if Contains(u, "://") && Parse(u).scheme == "" {
      assert false;
    } else if !Contains(u, "://") && Parse(u).scheme != "" {
      assert Candidate(raw) == u && IsHttpUrl(u);
      Models.HttpUrlShape(u);
      assert false;
    }
  }

  /** A URL without `://` that starts with a scheme token other than http(s),
      such as `mailto:x` or `localhost:8080`: `_normalize_url` reads it as a
      host and accepts it with `https://` in front; `normalize_url` sees its
      scheme and rejects it. */
  lemma SchemeLikeHostDiverges(raw: string, token: string, rest: string)
    requires raw == token + ":" + rest
    requires IsSchemeToken(token) && Lower(token) != "http" && Lower(token) != "https"
    requires IsTrimmed(raw) && !Contains(raw, "://")
    ensures Models.NormalizeUrl(Some(raw)) == Ok("https://" + raw)
    ensures NormalizeUrl(Some(raw)) == Err(InvalidUrl)
  {
    Models.NormalizeTrimmed(raw);
    NormalizeTrimmed(raw);
    assert raw[0] == token[0];
    FirstCharBlocksPrefix(raw, "//");
    assert Models.Prefixed(raw) == "https://" + raw;
    HttpsPrefixIsHttpUrl(raw);
    ParseWithScheme(token, rest);
    assert Candidate(raw) == raw;
  }

  /** A URL without a scheme that contains `://` further on, such as
      `example.com/?next=http://x`: `_normalize_url` takes the `://` as a
      sign of a scheme, adds no prefix and rejects the text; `normalize_url`
      prefixes `https://` and accepts it. */
  lemma EmbeddedSchemeDiverges(raw: string)
    requires IsTrimmed(raw) && Contains(raw, "://") && Parse(raw).scheme == ""
    requires raw != [] && !IsNetlocDelim(raw[0])
    ensures Models.NormalizeUrl(Some(raw)).Err?
    ensures NormalizeUrl(Some(raw)) == Ok("https://" + raw)
  {
    Models.NormalizeTrimmed(raw);
    NormalizeTrimmed(raw);
    FirstCharBlocksPrefix(raw, "//");
    assert Models.Prefixed(raw) == raw;
    assert Candidate(raw) == "https://" + raw;
    HttpsPrefixIsHttpUrl(raw);
  }

  /** `mailto:x` is accepted by `_normalize_url` and rejected by
      `normalize_url`. */
  lemma MailtoExample()
    ensures Models.NormalizeUrl(Some("mailto:x")) == Ok("https://mailto:x")
    ensures NormalizeUrl(Some("mailto:x")) == Err(InvalidUrl)
  {
    SchemeLikeHostLiteral("mailto:x", "mailto", "x", "https://mailto:x");
    SchemeLikeHostDiverges("mailto:x", "mailto", "x");
  }

  /** `localhost:8080` is accepted by `_normalize_url` (as the host
      `localhost` on port 8080) and rejected by `normalize_url` (as the
      scheme `localhost`). */
  lemma LocalhostExample()
    ensures Models.NormalizeUrl(Some("localhost:8080")) == Ok("https://localhost:8080")
    ensures NormalizeUrl(Some("localhost:8080")) == Err(InvalidUrl)
  {
    SchemeLikeHostLiteral("localhost:8080", "localhost", "8080", "https://localhost:8080");
    SchemeLikeHostDiverges("localhost:8080", "localhost", "8080");
  }

  /** The facts about a literal of the form `token:rest` that
      `SchemeLikeHostDiverges` needs. */
  lemma SchemeLikeHostLiteral(raw: string, token: string, rest: string, prefixed: string)
    requires raw == token + ":" + rest && prefixed == "https://" + raw
    requires |token| > 1 && forall k :: 0 <= k < |token| ==> IsAsciiLower(token[k])
    requires token[0] != 'h' && |rest| > 0 && IsAsciiAlnum(rest[|rest| - 1])
    requires forall k :: 0 <= k < |raw| ==> raw[k] != '/'
    ensures IsSchemeToken(token) && Lower(token) != "http" && Lower(token) != "https"
    ensures IsTrimmed(raw) && !Contains(raw, "://")
  {
    LowerSchemeLiteral(token);
    assert raw[0] == token[0] && raw[|raw| - 1] == rest[|rest| - 1];
    NoSlash(raw);
  }

  /** `example.com/?next=http://x` is rejected by `_normalize_url` and
      accepted by `normalize_url`. */
  lemma EmbeddedSchemeExample()
    ensures Models.NormalizeUrl(Some("example.com/?next=http://x")).Err?
    ensures NormalizeUrl(Some("example.com/?next=http://x")) == Ok("https://" + "example.com/?next=http://x")
  {
    EmbeddedSchemeContains();
    EmbeddedSchemeNoScheme();
    EmbeddedSchemeDiverges("example.com/?next=http://x");
  }

  lemma EmbeddedSchemeContains()
    ensures var raw := "example.com/?next=http://x";
      Contains(raw, "://") && IsTrimmed(raw) && raw != [] && !IsNetlocDelim(raw[0])
  {
    var raw := "example.com/?next=http://x";
    assert raw[22..25] == "://";
    ContainsAt(raw, "://", 22);
    assert raw[0] == 'e' && raw[|raw| - 1] == 'x';
  }

  lemma EmbeddedSchemeNoScheme()
    ensures Parse("example.com/?next=http://x").scheme == ""
  {
    SchemeBlocked("example.com/?next=http://x", 11);
  }

  /** A string without `/` does not contain `://`. */
  lemma {:induction false} NoSlash(s: string)
    requires forall k :: 0 <= k < |s| ==> s[k] != '/'
    ensures !Contains(s, "://")
    decreases |s|
  {
    if |s| >= 3 {
      assert s[..3][1] == s[1];
    }
    if s != [] {
      assert forall k :: 0 <= k < |s[1..]| ==> s[1..][k] != '/' by {
        forall k | 0 <= k < |s[1..]| ensures s[1..][k] != '/' {
          assert s[1..][k] == s[k + 1];
        }
      }
      NoSlash(s[1..]);
    }
  }

  /** A character outside the scheme alphabet before the first `:` means
      there is no scheme. */
  lemma SchemeBlocked(url: string, i: nat)
    requires i < |url| && !IsSchemeChar(url[i])
    requires forall k :: 0 <= k <= i ==> url[k] != ':'
    ensures Parse(url).scheme == ""
  {
    match FindChar(url, ':')
    case None =>
    case Some(j) =>
      assert j > i;
      assert url[..j][i] == url[i];
  }

  /** The first attempt, from attempt `k` on, whose code is not stored and
      whose commit does not lose a race (`races`); every earlier attempt drew
      a stored code or lost its commit. */
  function FirstCommitted(rows: map<string, string>, draws: seq<Index>, races: set<nat>,
                          k: nat, attempts: int): (j: Option<nat>)
    requires SHORT_URL_LENGTH * attempts <= |draws|
    ensures j.Some? ==>
      && k <= j.value < attempts
      && NthCode(SHORT_URL_LENGTH, draws, j.value) !in rows && j.value !in races
    ensures forall i :: k <= i < (if j.Some? then j.value else attempts) ==>
      NthCode(SHORT_URL_LENGTH, draws, i) in rows || i in races
    decreases attempts - k
  {
    if k >= attempts then None
    else if NthCode(SHORT_URL_LENGTH, draws, k) !in rows && k !in races then Some(k)
    else FirstCommitted(rows, draws, races, k + 1, attempts)
  }

  /** Every one of the `attempts` codes was stored or lost its commit. */
  predicate AllAttemptsFail(rows: map<string, string>, draws: seq<Index>, races: set<nat>, attempts: int)
    requires SHORT_URL_LENGTH * attempts <= |draws|
  {
    forall i :: 0 <= i < attempts ==> NthCode(SHORT_URL_LENGTH, draws, i) in rows || i in races
  }

  /** Lost races only delay the generated path: with fewer lost commits an
      allocation that succeeds still succeeds, no later. */
  lemma {:induction false} RacesOnlyDelay(rows: map<string, string>, draws: seq<Index>,
                                          races: set<nat>, extra: set<nat>, k: nat, attempts: int)
    requires SHORT_URL_LENGTH * attempts <= |draws|
    requires FirstCommitted(rows, draws, races + extra, k, attempts).Some?
    ensures FirstCommitted(rows, draws, races, k, attempts).Some?
    ensures FirstCommitted(rows, draws, races, k, attempts).value
         <= FirstCommitted(rows, draws, races + extra, k, attempts).value
    decreases attempts - k
  {
    if NthCode(SHORT_URL_LENGTH, draws, k) in rows || k in races + extra {
      RacesOnlyDelay(rows, draws, races, extra, k + 1, attempts);
    }
  }

  /** Python truthiness of the optional custom slug: present and non-empty
      (a blank string is truthy). */
  predicate Truthy(customSlug: Option<string>) {
    customSlug.Some? && customSlug.value != ""
  }

  /** What `create_short_link` does once the URL is normalised: a truthy
      custom slug is committed as given, otherwise a generated code is. */
  function AllocateOutcome(rows: map<string, string>, original: string, customSlug: Option<string>,
                           attempts: int, draws: seq<Index>, races: set<nat>)
    : Result<Mapping, LinkError>
    requires SHORT_URL_LENGTH * attempts <= |draws|
  {
    if Truthy(customSlug) then CustomLinkOutcome(rows, original, customSlug.value, 0 in races)
    else AutoLinkOutcome(rows, original, attempts, draws, races)
  }

  /** The custom path: one commit, whose `IntegrityError` is not caught. */
  function CustomLinkOutcome(rows: map<string, string>, original: string, slug: string, raced: bool)
    : Result<Mapping, LinkError>
  {
    if slug in rows || raced then Err(IntegrityViolation) else Ok(Mapping(slug, original))
  }

  /** The generated path: the code of the first attempt that commits, or
      `RuntimeError`. */
  function AutoLinkOutcome(rows: map<string, string>, original: string, attempts: int,
                           draws: seq<Index>, races: set<nat>): Result<Mapping, LinkError>
    requires SHORT_URL_LENGTH * attempts <= |draws|
  {
    match FirstCommitted(rows, draws, races, 0, attempts)
    case None => Err(GenerationFailed)
    case Some(j) => Ok(Mapping(NthCode(SHORT_URL_LENGTH, draws, j), original))
  }

  /** What `create_short_link` returns for a table, given the injected random
      positions and the attempts (numbered from 0; the custom path commits
      once, as attempt 0) whose commit loses a race to another writer. */
  function ShortLinkOutcome(rows: map<string, string>, originalUrl: Option<string>,
                            customSlug: Option<string>, attempts: int, draws: seq<Index>,
                            races: set<nat>): Result<Mapping, LinkError>
    requires SHORT_URL_LENGTH * attempts <= |draws|
  {
    match NormalizeUrl(originalUrl)
    case Err(e) => Err(e)
    case Ok(original) => AllocateOutcome(rows, original, customSlug, attempts, draws, races)
  }

  /** How `create_short_link` dispatches: an invalid URL is reported before
      anything else is looked at. */
  lemma ShortLinkDispatch(rows: map<string, string>, url: Option<string>, custom: Option<string>,
                          attempts: int, draws: seq<Index>, races: set<nat>)
    requires SHORT_URL_LENGTH * attempts <= |draws|
    ensures var r := ShortLinkOutcome(rows, url, custom, attempts, draws, races);
      && (NormalizeUrl(url).Err? ==> r == Err(InvalidUrl))
      && (NormalizeUrl(url).Ok? ==> r == AllocateOutcome(rows, NormalizeUrl(url).value, custom, attempts, draws, races))
  {
  }

  /** The generated path: success commits the code of the first attempt
      that was free and won its commit, a six-character alphanumeric code
      not stored before; the only failure is `RuntimeError`, exactly when
      every attempt drew a stored code or lost its commit. */
  lemma AutoLinkCases(rows: map<string, string>, original: string, attempts: int,
                      draws: seq<Index>, races: set<nat>)
    requires SHORT_URL_LENGTH * attempts <= |draws|
    ensures var r := AutoLinkOutcome(rows, original, attempts, draws, races);
      && (r.Ok? ==>
            && FirstCommitted(rows, draws, races, 0, attempts).Some?
            && var j := FirstCommitted(rows, draws, races, 0, attempts).value;
               && r.value == Mapping(NthCode(SHORT_URL_LENGTH, draws, j), original)
               && r.value.short !in rows
               && |r.value.short| == SHORT_URL_LENGTH && AllAlnum(r.value.short)
               && forall i :: 0 <= i < j ==> NthCode(SHORT_URL_LENGTH, draws, i) in rows || i in races)
      && (r.Err? <==> r == Err(GenerationFailed))
      && (r.Err? <==> AllAttemptsFail(rows, draws, races, attempts))
  {
    var first := FirstCommitted(rows, draws, races, 0, attempts);
    if first.Some? {
      assert NthCode(SHORT_URL_LENGTH, draws, first.value) !in rows && first.value !in races;
    }
  }

  /** `create_short_link` after normalisation, on success: the original is
      the normalised URL, the code was not stored; it is the custom slug as
      given, or the code of the first attempt that was free and won. */
  lemma AllocateSuccess(rows: map<string, string>, original: string, custom: Option<string>,
                        attempts: int, draws: seq<Index>, races: set<nat>)
    requires SHORT_URL_LENGTH * attempts <= |draws|
    ensures var r := AllocateOutcome(rows, original, custom, attempts, draws, races);
      r.Ok? ==>
        && r.value.original == original
        && r.value.short !in rows
        && (Truthy(custom) ==> r.value.short == custom.value)
        && (!Truthy(custom) ==>
              && |r.value.short| == SHORT_URL_LENGTH && AllAlnum(r.value.short)
              && FirstCommitted(rows, draws, races, 0, attempts).Some?
              && var j := FirstCommitted(rows, draws, races, 0, attempts).value;
                 && r.value.short == NthCode(SHORT_URL_LENGTH, draws, j)
                 && forall i :: 0 <= i < j ==> NthCode(SHORT_URL_LENGTH, draws, i) in rows || i in races)
  {
    if !Truthy(custom) {
      AutoLinkCases(rows, original, attempts, draws, races);
    }
  }

  /** `create_short_link` after normalisation, on failure: never an invalid
      URL; `IntegrityError` exactly for a truthy slug that is stored or lost
      its commit; `RuntimeError` exactly when there is no truthy slug and
      every attempt failed. */
  lemma AllocateFailures(rows: map<string, string>, original: string, custom: Option<string>,
                         attempts: int, draws: seq<Index>, races: set<nat>)
    requires SHORT_URL_LENGTH * attempts <= |draws|
    ensures var r := AllocateOutcome(rows, original, custom, attempts, draws, races);
      && r != Err(InvalidUrl)
      && (r == Err(IntegrityViolation) <==> Truthy(custom) && (custom.value in rows || 0 in races))
      && (r == Err(GenerationFailed) <==> !Truthy(custom) && AllAttemptsFail(rows, draws, races, attempts))
  {
    if !Truthy(custom) {
      AutoLinkCases(rows, original, attempts, draws, races);
    }
  }

  /** A successful `create_short_link` stores the normalised URL under a code
      that was not stored before: the custom slug exactly as given (no strip,
      no format or reserved check), or else a six-character alphanumeric code,
      the one of the first attempt whose code was free and whose commit won;
      every earlier attempt drew a stored code or lost its commit. */
  lemma ShortLinkSuccess(rows: map<string, string>, url: Option<string>, custom: Option<string>,
                         attempts: int, draws: seq<Index>, races: set<nat>)
    requires SHORT_URL_LENGTH * attempts <= |draws|
    ensures var r := ShortLinkOutcome(rows, url, custom, attempts, draws, races);
      r.Ok? ==>
        && NormalizeUrl(url) == Ok(r.value.original)
        && r.value.short !in rows
        && (Truthy(custom) ==> r.value.short == custom.value)
        && (!Truthy(custom) ==>
              && |r.value.short| == SHORT_URL_LENGTH && AllAlnum(r.value.short)
              && FirstCommitted(rows, draws, races, 0, attempts).Some?
              && var j := FirstCommitted(rows, draws, races, 0, attempts).value;
                 && r.value.short == NthCode(SHORT_URL_LENGTH, draws, j)
                 && forall i :: 0 <= i < j ==> NthCode(SHORT_URL_LENGTH, draws, i) in rows || i in races)
  {
    ShortLinkDispatch(rows, url, custom, attempts, draws, races);
    if NormalizeUrl(url).Ok? {
      AllocateSuccess(rows, NormalizeUrl(url).value, custom, attempts, draws, races);
    }
  }

  /** `create_short_link` raises `ValueError` exactly when the URL does not
      normalise; nothing else is looked at first. */
  lemma ShortLinkInvalidUrl(rows: map<string, string>, url: Option<string>, custom: Option<string>,
                            attempts: int, draws: seq<Index>, races: set<nat>)
    requires SHORT_URL_LENGTH * attempts <= |draws|
    ensures ShortLinkOutcome(rows, url, custom, attempts, draws, races) == Err(InvalidUrl)
        <==> NormalizeUrl(url).Err?
  {
    ShortLinkDispatch(rows, url, custom, attempts, draws, races);
    if NormalizeUrl(url).Ok? {
      AllocateFailures(rows, NormalizeUrl(url).value, custom, attempts, draws, races);
    }
  }

  /** A truthy custom slug fails only at its commit, with the uncaught
      `IntegrityError`, exactly when it is already stored or the commit lost
      a race; the generated path never raises it. */
  lemma ShortLinkIntegrity(rows: map<string, string>, url: Option<string>, custom: Option<string>,
                           attempts: int, draws: seq<Index>, races: set<nat>)
    requires SHORT_URL_LENGTH * attempts <= |draws|
    ensures ShortLinkOutcome(rows, url, custom, attempts, draws, races) == Err(IntegrityViolation)
        <==> NormalizeUrl(url).Ok? && Truthy(custom) && (custom.value in rows || 0 in races)
  {
    ShortLinkDispatch(rows, url, custom, attempts, draws, races);
    if NormalizeUrl(url).Ok? {
      AllocateFailures(rows, NormalizeUrl(url).value, custom, attempts, draws, races);
    }
  }

  /** `RuntimeError` exactly when there is no truthy custom slug and every
      one of the `attempts` codes was stored or lost its commit (always, when
      `attempts` is 0 or less). */
  lemma ShortLinkExhausted(rows: map<string, string>, url: Option<string>, custom: Option<string>,
                           attempts: int, draws: seq<Index>, races: set<nat>)
    requires SHORT_URL_LENGTH * attempts <= |draws|
    ensures ShortLinkOutcome(rows, url, custom, attempts, draws, races) == Err(GenerationFailed)
        <==> NormalizeUrl(url).Ok? && !Truthy(custom) && AllAttemptsFail(rows, draws, races, attempts)
  {
    ShortLinkDispatch(rows, url, custom, attempts, draws, races);
    if NormalizeUrl(url).Ok? {
      AllocateFailures(rows, NormalizeUrl(url).value, custom, attempts, draws, races);
    }
  }

  /** With no lost commits, the generated path succeeds when one of the
      `attempts` codes is free (the converse is part of `AutoLinkCases`). */
  lemma UncontendedAutoSucceeds(rows: map<string, string>, original: string, attempts: int,
                                draws: seq<Index>, i: nat)
    requires SHORT_URL_LENGTH * attempts <= |draws|
    requires i < attempts && NthCode(SHORT_URL_LENGTH, draws, i) !in rows
    ensures AutoLinkOutcome(rows, original, attempts, draws, {}).Ok?
  {
    var first := FirstCommitted(rows, draws, {}, 0, attempts);
    if first.None? {
      assert false;
    }
  }

  /** A truthy custom slug that is free and wins its commit is stored
      exactly as given, whatever its format. */
  lemma CustomSlugVerbatim(rows: map<string, string>, url: Option<string>, slug: string,
                           attempts: int, draws: seq<Index>, races: set<nat>)
    requires SHORT_URL_LENGTH * attempts <= |draws|
    requires NormalizeUrl(url).Ok? && slug != "" && slug !in rows && 0 !in races
    ensures ShortLinkOutcome(rows, url, Some(slug), attempts, draws, races)
         == Ok(Mapping(slug, NormalizeUrl(url).value))
  {
    ShortLinkDispatch(rows, url, Some(slug), attempts, draws, races);
  }

  /** The custom path performs none of the slug checks of `URLMap`: storing
      `files` leaves the table outside `Models.WellFormed`. */
  lemma ReservedSlugStored(rows: map<string, string>, url: Option<string>,
                           attempts: int, draws: seq<Index>, races: set<nat>)
    requires SHORT_URL_LENGTH * attempts <= |draws|
    requires NormalizeUrl(url).Ok? && "files" !in rows && 0 !in races
    ensures !Models.WellFormed(AfterCreate(rows, ShortLinkOutcome(rows, url, Some("files"), attempts, draws, races)))
  {
    CustomSlugVerbatim(rows, url, "files", attempts, draws, races);
    Models.LowerFiles("files");
    var after := AfterCreate(rows, ShortLinkOutcome(rows, url, Some("files"), attempts, draws, races));
    assert "files" in after && Models.IsReserved("files");
  }

  /** A custom slug with surrounding whitespace is stored with it, and
      `get_by_short`, which strips its argument, never returns that row. */
  lemma UnstrippedSlugUnreachable(rows: map<string, string>, url: Option<string>, slug: string,
                                  attempts: int, draws: seq<Index>, races: set<nat>)
    requires SHORT_URL_LENGTH * attempts <= |draws|
    requires ShortLinkOutcome(rows, url, Some(slug), attempts, draws, races).Ok?
    requires Strip(slug) != slug
    ensures var r := ShortLinkOutcome(rows, url, Some(slug), attempts, draws, races);
      var after := AfterCreate(rows, r);
      && r.value.short == slug && slug in after
      && forall probe :: Models.GetByShort(after, probe) != Some(r.value)
  {
    ShortLinkSuccess(rows, url, Some(slug), attempts, draws, races);
    var r := ShortLinkOutcome(rows, url, Some(slug), attempts, draws, races);
    var after := AfterCreate(rows, r);
    forall probe ensures Models.GetByShort(after, probe) != Some(r.value) {
      var g := Models.GetByShort(after, probe);
      if g == Some(r.value) {
        assert Models.IsShortFormat(slug);
        Models.ShortFormatTrimmed(slug);
      }
    }
  }

  /** `create_short_link`. */
  method CreateShortLink(table: Table, originalUrl: Option<string>, customSlug: Option<string>,
                         attempts: int, draws: seq<Index>, races: set<nat>)
    returns (r: Result<Mapping, LinkError>)
    requires SHORT_URL_LENGTH * attempts <= |draws|
    modifies table
    ensures r == ShortLinkOutcome(old(table.rows), originalUrl, customSlug, attempts, draws, races)
    ensures table.rows == AfterCreate(old(table.rows), r)
  {
    var normalized := NormalizeUrl(originalUrl);
    if normalized.Err? {
      return Err(normalized.error);
    }
    r := Allocate(table, normalized.value, customSlug, attempts, draws, races);
  }

  /** The part of `create_short_link` after normalisation: the custom slug's
      single commit, or the retry loop. */
  method Allocate(table: Table, original: string, customSlug: Option<string>, attempts: int,
                  draws: seq<Index>, races: set<nat>)
    returns (r: Result<Mapping, LinkError>)
    requires SHORT_URL_LENGTH * attempts <= |draws|
    modifies table
    ensures r == AllocateOutcome(old(table.rows), original, customSlug, attempts, draws, races)
    ensures table.rows == AfterCreate(old(table.rows), r)
  {
    if Truthy(customSlug) {
      var committed := table.Insert(customSlug.value, original, 0 in races);
      if committed == UniquenessViolation {
        return Err(IntegrityViolation);
      }
      return Ok(Mapping(customSlug.value, original));
    }
    r := GenerateAndCommit(table, original, attempts, draws, races);
  }

  /** The retry loop of `create_short_link`: a generated code that is stored
      is skipped without a write, a lost commit is rolled back and the loop
      moves on, and `RuntimeError` follows the last attempt. */
  method GenerateAndCommit(table: Table, original: string, attempts: int, draws: seq<Index>,
                           races: set<nat>)
    returns (r: Result<Mapping, LinkError>)
    requires SHORT_URL_LENGTH * attempts <= |draws|
    modifies table
    ensures r == AutoLinkOutcome(old(table.rows), original, attempts, draws, races)
    ensures table.rows == AfterCreate(old(table.rows), r)
  {
    ghost var rows0 := table.rows;
    var n := if attempts < 0 then 0 else attempts;
    for k := 0 to n
      invariant table.rows == rows0
      invariant FirstCommitted(rows0, draws, races, k, attempts)
             == FirstCommitted(rows0, draws, races, 0, attempts)
    {
      var slug := Generate(SHORT_URL_LENGTH, draws[SHORT_URL_LENGTH * k..SHORT_URL_LENGTH * (k + 1)]);
      if slug in table.rows {
        continue;
      }
      var committed := table.Insert(slug, original, k in races);
      if committed == Committed {
        return Ok(Mapping(slug, original));
      }
    }
    return Err(GenerationFailed);
  }
}
