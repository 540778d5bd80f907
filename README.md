# yacut URL shortener core in Dafny

This project models the URL-shortening core of yacut, a Flask application that
maps short codes to original URLs. The core exists twice in the repository, and
the two copies behave differently:

- `URLMap` in `yacut/models.py`: `_normalize_url`, `validate_custom`,
  `get_by_short` and `create_one`.
- `yacut/shortener.py`: `generate_code`, `normalize_url` and
  `create_short_link`, the allocator that the JSON API uses.

The JSON API in `yacut/api_views.py` is modelled too. `add_url` checks the body
and `custom_id`, then delegates to `create_short_link`. `get_original_url` looks
a code up.

Modules, one per file:

| file | module | what it holds |
|---|---|---|
| `wrappers.dfy` | `Wrappers` | `Option` and `Result` |
| `text.dfy` | `Text` | `str.strip` over CPython's `str.isspace` set, ASCII classes, ASCII `lower`, `startswith`, substring test |
| `urlparse.dfy` | `UrlParse` | the scheme and netloc that `urllib.parse.urlparse` computes |
| `codes.dfy` | `Codes` | `ALPHABET` and `generate_code` over an injected stream of random positions |
| `store.dfy` | `Store` | the `url_map` table as a class holding `map<string, string>` (code to original), with a committing `Insert` |
| `models.dfy` | `Models` | the `URLMap` helpers and `create_one` |
| `shortener.dfy` | `Shortener` | `normalize_url` and `create_short_link` |
| `api_views.dfy` | `ApiViews` | `add_url` and `get_original_url` |

How the model handles what Dafny cannot run:

- **Randomness.** `secrets.choice(ALPHABET)` becomes a sequence `draws` of
  positions in the 62-character alphabet. Attempt `k` of a generation loop
  uses positions `6k` to `6k+5` (`Codes.NthCode`).
- **Commit races.** Another writer committing the same code first is a
  parameter. In `create_one` it is a boolean `contended`. In
  `create_short_link` it is `races`, the set of attempt numbers whose commit
  loses; the single commit of the custom path counts as attempt 0.
- **State.** The table is a `Store.Table` object whose `rows` map the allocators
  change. `Models.CreateOne`, `Shortener.CreateShortLink` and `ApiViews.AddUrl`
  are module-level methods that take the table as a parameter and modify it.
  Each is proved equal to a specification function on the table's map. The lemmas are stated about
  those functions.

Behaviour of the code that the model follows, and that a reader might not
expect:

- Both allocators look each generated code up before inserting it
  (`models.py:106`, `shortener.py:51`). A stored code is skipped without a
  write. In `create_one` this matters: an optimistic insert without the lookup
  would end in `SlugConflict`, because a lost commit is not retried
  (`models.py:113-120`). In `create_short_link` a stored code would fail its
  commit, be rolled back and the loop would go on (`shortener.py:57-60`), which
  is the same outcome.
- `create_one` reports a reserved slug (`files` in any letter case) as
  `SlugConflict`, the same kind as a taken slug (`models.py:96-98`). It is
  not a separate kind.
- `create_short_link` stores a truthy custom slug exactly as given. It does
  not strip it and does not check its format or the reserved word. A lost or
  duplicate commit on that path is not caught (`shortener.py:43-47`).
- In `add_url`, every exception from `create_short_link` escapes the view and
  becomes the generic 500 answer. That covers an invalid URL (`ValueError`),
  a commit that lost a race on a custom slug (`IntegrityError`) and exhausted
  attempts (`RuntimeError`). None of these is answered with a 400.
- The two normalisers decide differently whether a URL already has a scheme:
  `models.py:55` looks for `://` and `shortener.py:27` uses the parsed
  scheme. Under the modelled `urlsplit`, where both accept an input, they
  return the same URL (`Shortener.NormalizersAgree`). Otherwise they split on two families of
  inputs. `mailto:x` and, with the `urlsplit` of CPython 3.9 and later,
  `localhost:8080` are accepted only by the first.
  `example.com/?next=http://x` is accepted only by the second.

## Model

| member | source | states |
|---|---|---|
| `Text.Strip` | yacut/models.py:52 | `str.strip()` returns the infix left after removing leading and trailing whitespace. It has no whitespace at either end, and it is empty exactly when the input is all whitespace. |
| `UrlParse.Parse` | yacut/models.py:57-58 | A non-empty parsed scheme is the lower-cased text before the first `:`, which is a valid scheme token. A scheme with a netloc is followed by `://`. The netloc holds no `/`, `?` or `#`. |
| `UrlParse.NoSchemeWithoutLetter` | yacut/shortener.py:25-28 | Text that is empty or does not start with an ASCII letter has no parsed scheme, so `normalize_url` puts `https://` in front of it. |
| `UrlParse.ParseWithScheme` | yacut/shortener.py:25-27 | A scheme token followed by `:` parses as that token lower-cased, with the netloc taken from the rest. |
| `UrlParse.HttpsPrefixIsHttpUrl` | yacut/shortener.py:28-31 | Text prefixed with `https://` passes the http(s)-with-host check exactly when it is non-empty and does not start with `/`, `?` or `#`. |
| `Codes.AlphabetShape` | yacut/shortener.py:11 | `ALPHABET` has 62 distinct characters, and a character is in it exactly when it is an ASCII letter or digit. |
| `Codes.Generate` | yacut/shortener.py:15-16 | `generate_code(length)` has `length` characters (none for a negative length). Its i-th character is the alphabet character at the i-th drawn position. |
| `Codes.GenerateAlnum` | yacut/shortener.py:15-16 | Every generated code consists of ASCII letters and digits only. |
| `Codes.GenerateBijective` | yacut/shortener.py:15-16 | Every alphanumeric string of a given length can be generated, and from exactly one sequence of positions. |
| `Codes.NthCode` | yacut/shortener.py:50 | The code of attempt `j` of a generation loop has the requested length and is alphanumeric. |
| `Store.AfterCreate` | yacut/models.py:113-121 | After an allocation, success adds exactly the new code-to-original entry and leaves every other entry as it was. Failure leaves the table unchanged. |
| `Store.Table.Insert` | yacut/models.py:113-120 | `add` plus `commit` succeeds exactly when the code is not stored and no other writer won the commit. Success adds one entry; a rolled-back commit changes nothing. |
| `Models.NormalizeUrl` | yacut/models.py:50-60 | `_normalize_url` either fails with `UrlInvalid` or returns an http(s) URL with a host. That URL is the stripped input with no prefix, `https:` or `https://` in front. It contains `://`, does not start with `//` and has no surrounding whitespace. |
| `Models.Prefixed` | yacut/models.py:53-56 | The text `_normalize_url` checks: `https:` before a leading `//`, then `https://` when `://` is absent. It has no contract of its own; `Models.PrefixedShape` states its shape. |
| `Models.PrefixedShape` | yacut/models.py:52-56 | The text checked is the trimmed input with one of the three prefixes. It contains `://` and does not start with `//`. |
| `Models.NormalizeTrimmed` | yacut/models.py:52-60 | On input without surrounding whitespace, `_normalize_url` is the http(s) check of the prefixed text. |
| `Models.HttpUrlShape` | yacut/models.py:57-60 | An accepted URL starts with an ASCII letter, does not start with `//` and contains `://`. |
| `Models.NormalizeUrlFixedPoints` | yacut/models.py:50-60 | `_normalize_url` returns its input unchanged exactly when the input is trimmed and an http(s) URL with a host. |
| `Models.NormalizeUrlIdempotent` | yacut/models.py:50-60 | Normalising a normalised URL returns it unchanged. |
| `Models.ValidateCustom` | yacut/models.py:62-78 | `None` or blank input gives `None`. Otherwise it returns the stripped slug when that slug has 1 to 16 ASCII letters or digits, is not `files` in any case, and (with `check_unique`) is not stored. A bad format is `SlugInvalid`. A reserved or stored slug is `SlugConflict`. |
| `Models.ReservedIsConflict` | yacut/models.py:70-74 | Every letter-case spelling of `files`, after stripping, passes the format check and is then refused as `SlugConflict`. It is never refused as `SlugInvalid`. |
| `Models.ReservedSpellings` | yacut/models.py:72-74 | `FILES` and `Files` are refused as `SlugConflict`. |
| `Models.ReservedAfterStrip` | yacut/models.py:67-74 | ` files ` is stripped before the reserved check and refused as `SlugConflict`. |
| `Models.GetByShort` | yacut/models.py:80-85 | `get_by_short` finds a row exactly when the stripped argument matches `SHORT_RE` and is stored. The row it returns is the one stored under the stripped code. |
| `Models.FirstFree` | yacut/models.py:103-108 | The first attempt whose generated code is not stored is below `attempts`. Every earlier attempt drew a stored code. |
| `Models.GeneratedNotReserved` | yacut/models.py:103-105 | A six-character code is never the reserved word. |
| `Models.CustomCheck` | yacut/models.py:93-101 | The checks on a non-blank slug pass exactly when it matches `SHORT_RE`, is not reserved and is not stored. A format failure is `SlugInvalid`, and every other refusal is `SlugConflict`. |
| `Models.CommitOutcome` | yacut/models.py:113-120 | The commit succeeds exactly when the code is not stored and no other writer won the commit, and it then stores that code with the original. Otherwise the result is `SlugConflict`. |
| `Models.CustomOutcomeCases` | yacut/models.py:92-101 | A non-blank slug is stored exactly when it is well formed, not reserved, not stored and its commit wins. It is stored as given. A malformed slug is `SlugInvalid`. Every other failure is `SlugConflict`. |
| `Models.AutoOutcomeCases` | yacut/models.py:102-120 | The generated path stores the code of the first free attempt, which is well formed and not reserved. It succeeds exactly when some attempt drew a free code and the commit did not lose a race; a lost commit is not retried. `RuntimeError` comes exactly when every attempt drew a stored code. Any other failure is a lost commit. |
| `Models.CreateOneDispatch` | yacut/models.py:90-92 | An invalid URL fails before any slug check. A non-blank stripped slug takes the custom path; otherwise a code is generated. |
| `Models.CreateOneSuccess` | yacut/models.py:90-113 | On success the original is the normalised URL. The code was not stored, is well formed and not reserved. It is the stripped custom slug, or else the code of the first free attempt. |
| `Models.CreateOneFailures` | yacut/models.py:87-121 | `UrlInvalid` exactly for a URL that does not normalise. `SlugInvalid` exactly for a non-blank malformed slug. `RuntimeError` exactly when no slug is given and every attempt drew a stored code, which includes zero attempts. `SlugConflict` exactly for a well-formed custom slug that is reserved, stored or loses its commit, or for a generated code whose commit loses. |
| `Models.CreateOnePreservesWellFormed` | yacut/models.py:87-121 | `create_one` keeps the table well formed: every code matches `SHORT_RE` and is not reserved, and every original is an http(s) URL with a host. |
| `Models.CreateOneThenGet` | yacut/models.py:80-121 | After a successful `create_one`, `get_by_short` on the new code returns the new row, which holds the normalised URL. |
| `Models.ShortFormatTrimmed` | yacut/models.py:13 | A code that matches `SHORT_RE` is unchanged by stripping. |
| `Models.CustomSlugTaken` | yacut/models.py:99-101 | Once a custom slug is stored, asking for it again is `SlugConflict`, or `UrlInvalid` when the second URL is invalid. |
| `Models.CreateOne` | yacut/models.py:87-121 | The method's result and new table are those of the specification `CreateOneOutcome`. |
| `Models.Allocate` | yacut/models.py:91-121 | After normalisation, the custom checks or the generation loop, then the commit, match `AllocateOutcome`. A lost commit leaves the table unchanged. |
| `Models.PickFreeCode` | yacut/models.py:103-108 | The loop returns the code of the first attempt whose code is not stored (by `FirstFree`), or the empty string when every attempt was taken. |
| `Shortener.Candidate` | yacut/shortener.py:22-29 | The text `normalize_url` checks: `https:` before a leading `//`, then `https://` when there is no parsed scheme. It has no contract of its own; `Shortener.CandidateShape` states its shape. |
| `Shortener.CandidateShape` | yacut/shortener.py:20-29 | The text `normalize_url` checks is the trimmed input with no prefix, `https:` or `https://` in front, and it stays trimmed. |
| `Shortener.NormalizeUrl` | yacut/shortener.py:19-34 | `normalize_url` either raises `ValueError` or returns a trimmed http(s) URL with a host. That URL is the stripped input with one of the three prefixes. |
| `Shortener.NormalizeTrimmed` | yacut/shortener.py:20-34 | On input without surrounding whitespace, `normalize_url` is the http(s) check of the prefixed text. |
| `Shortener.NormalizeUrlFixedPoints` | yacut/shortener.py:19-34 | `normalize_url` returns its input unchanged exactly when the input is trimmed and an http(s) URL with a host. |
| `Shortener.NormalizeUrlIdempotent` | yacut/shortener.py:19-34 | Normalising a normalised URL returns it unchanged. |
| `Shortener.NormalizersAgree` | yacut/shortener.py:19-34 | When `_normalize_url` and `normalize_url` both accept an input, they return the same URL. |
| `Shortener.SchemeLikeHostDiverges` | yacut/shortener.py:25-32 | A trimmed `token:rest` without `://`, whose token is a scheme other than http(s), is accepted by `_normalize_url` with `https://` in front. `normalize_url` rejects it. |
| `Shortener.EmbeddedSchemeDiverges` | yacut/shortener.py:25-32 | A trimmed URL without a scheme but with `://` further on is rejected by `_normalize_url`. `normalize_url` accepts it with `https://` in front. |
| `Shortener.MailtoExample` | yacut/shortener.py:25-32 | `mailto:x` gives `https://mailto:x` in `models.py` and `ValueError` in `shortener.py`. |
| `Shortener.LocalhostExample` | yacut/shortener.py:25-32 | `localhost:8080` gives `https://localhost:8080` in `models.py` and `ValueError` in `shortener.py`, under the `urlsplit` of CPython 3.9 and later. |
| `Shortener.EmbeddedSchemeExample` | yacut/shortener.py:25-32 | `example.com/?next=http://x` is rejected in `models.py` and accepted in `shortener.py` with `https://` in front. |
| `Shortener.FirstCommitted` | yacut/shortener.py:49-60 | The first attempt whose code is free and whose commit wins is below `attempts`. Every earlier attempt drew a stored code or lost its commit. |
| `Shortener.RacesOnlyDelay` | yacut/shortener.py:53-60 | Lost commits only delay the generated path. With fewer of them, an allocation that succeeded still succeeds, at the same attempt or earlier. |
| `Shortener.ShortLinkDispatch` | yacut/shortener.py:42-43 | An invalid URL fails before anything else. A valid one goes to the allocation with the normalised URL. |
| `Shortener.AutoLinkCases` | yacut/shortener.py:49-62 | The generated path stores the code of the first attempt that was free and won its commit. That code is a fresh six-character alphanumeric code. The only failure is `RuntimeError`, exactly when every attempt failed. |
| `Shortener.AllocateSuccess` | yacut/shortener.py:43-57 | After normalisation, success stores the normalised URL under a code that was not stored: the truthy custom slug as given, or the first committed generated code. |
| `Shortener.AllocateFailures` | yacut/shortener.py:43-62 | After normalisation: `IntegrityError` exactly for a truthy slug that is stored or lost its commit. `RuntimeError` exactly when there is no truthy slug and every attempt failed. |
| `Shortener.ShortLinkSuccess` | yacut/shortener.py:37-57 | A successful `create_short_link` stores the normalised URL under a code that was not stored before. The code is the custom slug verbatim, or else a six-character alphanumeric code from the first free attempt whose commit won. |
| `Shortener.ShortLinkInvalidUrl` | yacut/shortener.py:42 | `ValueError` comes exactly when the URL does not normalise. |
| `Shortener.ShortLinkIntegrity` | yacut/shortener.py:43-47 | The uncaught `IntegrityError` comes exactly for a valid URL with a truthy custom slug that is stored or lost its commit. |
| `Shortener.ShortLinkExhausted` | yacut/shortener.py:49-62 | `RuntimeError` comes exactly for a valid URL with no truthy slug when every attempt drew a stored code or lost its commit. That includes zero or negative attempts. |
| `Shortener.UncontendedAutoSucceeds` | yacut/shortener.py:49-57 | With no lost commits, the generated path succeeds whenever some attempt draws a free code. |
| `Shortener.CustomSlugVerbatim` | yacut/shortener.py:43-47 | A free, truthy custom slug that wins its commit is stored exactly as given, whatever its format. |
| `Shortener.ReservedSlugStored` | yacut/shortener.py:43-47 | `create_short_link` stores the reserved `files` and leaves the table outside the invariant that `create_one` keeps. |
| `Shortener.UnstrippedSlugUnreachable` | yacut/shortener.py:43-47 | A custom slug with surrounding whitespace is stored with it, and `get_by_short` never returns that row. |
| `Shortener.CreateShortLink` | yacut/shortener.py:37-62 | The method's result and new table are those of the specification `ShortLinkOutcome`. |
| `Shortener.Allocate` | yacut/shortener.py:43-49 | After normalisation, the custom slug's single commit or the retry loop matches `AllocateOutcome`. |
| `Shortener.GenerateAndCommit` | yacut/shortener.py:49-62 | The retry loop commits the code that `FirstCommitted` picks. Stored codes are skipped without a write, and lost commits are rolled back. `RuntimeError` follows the last attempt with the table unchanged. |
| `ApiViews.MessageText` | yacut/api_views.py:15-37 | The messages of the view's `InvalidAPIUsage` errors, verbatim. It has no contract of its own; `ApiViews.CheckCustom`, `ApiViews.Decide` and `ApiViews.GetOriginalUrl` state which answer carries which message. |
| `ApiViews.UrlKeyTest` | yacut/api_views.py:16 | `'url' in data` is a key test on an object, and it raises `TypeError` exactly on a boolean, a number or `null`. |
| `ApiViews.CustomId` | yacut/api_views.py:20-24 | `custom_id` is stripped when it is a string. Any other truthy value is passed on unchanged. It becomes `None` exactly when it is absent, falsy or blank. |
| `ApiViews.CheckCustom` | yacut/api_views.py:27-37 | A string is accepted exactly when it matches `SHORT_RE`, is not reserved and is not stored. It gets 400 invalid-name exactly when it is malformed or reserved, and 400 already-exists exactly when it is valid and stored. An array or object gets 400 invalid-name exactly when it is longer than 16, and otherwise the 500 of a `TypeError`. A boolean or a number always gets the 500. |
| `ApiViews.UrlArgument` | yacut/api_views.py:40 | A string `url` is passed on as it is. A falsy value becomes empty text. Any other value raises `AttributeError` (500). |
| `ApiViews.Decide` | yacut/api_views.py:13-40 | A missing or `null` body is 400 body-missing, and an object without `url` is 400 url-required. Every rejection is one of the view's 400 messages or a 500. The view proceeds only with an object that holds `url`. |
| `ApiViews.EarlyRejections` | yacut/api_views.py:13-17 | A missing, unparsable or `null` body gets 400 "body missing". An object without `url` gets 400 "url is required". Neither looks at the table or the generator, and a body that is not an object never creates a row. |
| `ApiViews.BadRequestBeforeAllocation` | yacut/api_views.py:13-40 | Every 400 answer comes from the checks before `create_short_link`. It does not depend on the draws or races and leaves the table unchanged. |
| `ApiViews.BlankCustomIsGenerated` | yacut/api_views.py:20-40 | An absent, falsy or blank `custom_id` leads to the generated path. A created code is six ASCII letters or digits. |
| `ApiViews.InvalidCustomRejected` | yacut/api_views.py:30-34 | A stripped `custom_id` that does not match `SHORT_RE`, or is `files` in any case, gets 400 with the invalid-name message. That holds even when a row `files` exists. |
| `ApiViews.TakenCustomRejected` | yacut/api_views.py:36-40 | A valid, unreserved `custom_id` that is stored gets 400 "already exists". A created row is stored under the stripped `custom_id`. |
| `ApiViews.FreeCustomCreated` | yacut/api_views.py:20-46 | A string `url` that normalises, with a well-formed, unreserved, free `custom_id`, creates the row of the stripped id holding the normalised URL, unless that single commit loses a race. |
| `ApiViews.CustomDecision` | yacut/api_views.py:27-37 | The checks on a non-blank string `custom_id` run in this order: format, reserved word, lookup. |
| `ApiViews.DecideProceed` | yacut/api_views.py:12-40 | When the checks pass, the body is an object with `url`, and a custom slug handed on is well formed, unreserved and free. |
| `ApiViews.LinkSuccess` | yacut/api_views.py:40 | From a slug that passed the view's checks, or none, `create_short_link` creates only a row whose code was free, matches `SHORT_RE` and is not reserved, holding the normalised URL. |
| `ApiViews.AddUrlSuccess` | yacut/api_views.py:40-46 | A 201 answer carries the stored original, which is the normalised `url`. The code was free, matches `SHORT_RE` and is not reserved. |
| `ApiViews.AddUrlPreservesWellFormed` | yacut/api_views.py:27-40 | Through `add_url`, `create_short_link` keeps the table well formed. |
| `ApiViews.GetOriginalUrl` | yacut/api_views.py:49-54 | 200 with the stored original exactly when the id is stored as given, with no strip and no format gate. Otherwise 404 with the id-not-found message. |
| `ApiViews.AddUrlThenGet` | yacut/api_views.py:40-54 | The code of a 201 answer finds the new row through `get_original_url` and through `get_by_short`. |
| `ApiViews.LookupsAgreeOnTrimmed` | yacut/api_views.py:49-54 | On a well-formed table, the API lookup and `get_by_short` agree on ids without surrounding whitespace. |
| `ApiViews.PaddedIdNotFound` | yacut/api_views.py:49-54 | An id padded with whitespace gets 404 from the API, while `get_by_short` finds the stored code. |
| `ApiViews.AddUrl` | yacut/api_views.py:11-46 | The view's answer and new table are those of the specification `AddUrlOutcome`. |

## Left out

- UrlParse.Parse: this is a simplified `urlparse`, following CPython 3.11.1 and later (the first-letter rule for a scheme; 3.8 and earlier also gave no scheme to `localhost:8080`, whose part after `:` is all digits, so both normalisers accepted it there). It does not strip leading C0 control characters or remove tab, CR and LF. It does not validate bracketed IPv6 hosts or ports. It lower-cases ASCII only.
- Shortener.NormalizersAgree: agreement is proved under the modelled `urlsplit` only. CPython also deletes tab, CR and LF before splitting, so `http:/\t/x` is accepted by both normalisers with different results: `_normalize_url` sees no `://` and returns `https://http:/\t/x` (netloc `http:`), while `normalize_url` returns `http:/\t/x` (netloc `x`).
- Text.Lower: ASCII only. Every use in the core is either on text already checked to be ASCII letters and digits, or on scheme characters.
- Store.Table.Insert: when another writer wins a commit, its row is not added to the modelled table. The table models only what this request does to it.
- The length limits of the columns (`String(2048)` for `original`, `String(16)` for `short`) are not modelled. A long verbatim slug from `create_short_link` is stored in the model whatever the database backend would do with it.
- The store-assigned `id` and `timestamp` of a row are not modelled.
- `short_link` in the 201 answer is `url_for(..., _external=True)`. It depends on the request's host, so the model returns the code it is built from.
- Randomness is injected as positions in the alphabet. Nothing is claimed about the distribution of `secrets.choice`.
- Concurrency between requests is modelled only through the lost-commit parameters. The session state after an uncaught `IntegrityError` is not modelled; the 500 handler rolls it back.
- JSON parsing by `request.get_json(silent=True)` is not modelled. The body is a decoded value, or nothing when it is missing or unparsable.
- Exception messages of `URLMap` are not modelled, only the exception kinds. The API messages are carried as constants.
- Not part of this model: `yacut/yandexdisk.py` (network client), `yacut/views.py` and `yacut/forms.py` (HTML routes and forms), `yacut/__init__.py` (application set-up), and the content negotiation of `yacut/error_handlers.py`. Its 400/404/500 status mapping is modelled in `ApiViews.ApiResponse`.
