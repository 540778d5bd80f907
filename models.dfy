/** The `URLMap` model and its helpers: URL normalisation, custom-slug
    validation, the format-gated lookup and `create_one`, the allocator that
    pre-checks a slug before inserting it. */
module Models {
  import opened Wrappers
  import opened Text
  import opened UrlParse
  import opened Codes
  import opened Store

  /** Length of an auto-generated code (`SHORT_LEN`). */
  const SHORT_LEN: nat := 6
  /** Longest short code the `short` column and `SHORT_RE` allow. */
  const MAX_SHORT_LEN: nat := 16
  /** Codes that collide with a routed path (`URLMap.RESERVED`). */
  const RESERVED: set<string> := {"files"}

  /** `UrlInvalid`, `SlugInvalid`, `SlugConflict`, and the `RuntimeError`
      raised when auto-generation runs out of attempts. */
  datatype ModelError = UrlInvalid | SlugInvalid | SlugConflict | GenerationFailed

  /** `SHORT_RE = ^[A-Za-z0-9]{1,16}$`. */
  predicate IsShortFormat(s: string) {
    1 <= |s| <= MAX_SHORT_LEN && AllAlnum(s)
  }

  /** `s.lower() in RESERVED`. */
  predicate IsReserved(s: string) {
    Lower(s) in RESERVED
  }

  /** The table invariant the allocator of this module maintains: every code
      has the canonical format and is not reserved, and every original is an
      http(s) URL with a host. */
  ghost predicate WellFormed(rows: map<string, string>) {
    forall k :: k in rows ==> IsShortFormat(k) && !IsReserved(k) && IsHttpUrl(rows[k])
  }

  /** `URLMap._normalize_url`: strips the input (`None` counts as empty),
      turns `//host` into `https://host`, prefixes `https://` when `://` does
      not occur, and accepts the result only when it parses as an http(s) URL
      with a host. A successful result is the stripped input with one of three
      prefixes, contains `://`, does not start with `//` and has no
      surrounding whitespace. */
  function NormalizeUrl(url: Option<string>): (r: Result<string, ModelError>)
    ensures r.Err? ==> r.error == UrlInvalid
    ensures r.Ok? ==> IsHttpUrl(r.value)
    ensures r.Ok? ==>
      var raw := Strip(url.GetOr(""));
      r.value == raw || r.value == "https:" + raw || r.value == "https://" + raw
    ensures r.Ok? ==> Contains(r.value, "://") && !StartsWith(r.value, "//") && IsTrimmed(r.value)
  {
    var raw := Strip(url.GetOr(""));
    var candidate := Prefixed(raw);
    PrefixedShape(raw);
    if IsHttpUrl(candidate) then Ok(candidate) else Err(UrlInvalid)
  }

  /** The text `_normalize_url` checks: `https:` before a leading `//`, then
      `https://` when `://` does not occur. */
  function Prefixed(raw: string): string {
    var raw1 := if StartsWith(raw, "//") then "https:" + raw else raw;
    if Contains(raw1, "://") then raw1 else "https://" + raw1
  }

  lemma PrefixedShape(raw: string)
    requires IsTrimmed(raw)
    ensures var c := Prefixed(raw);
      && (c == raw || c == "https:" + raw || c == "https://" + raw)
      && Contains(c, "://") && !StartsWith(c, "//") && IsTrimmed(c)
  {
    if StartsWith(raw, "//") {
      var c := "https:" + raw;
      assert c[5..8] == "://";
      ContainsAt(c, "://", 5);
      assert c[0] == 'h' && c[|c| - 1] == raw[|raw| - 1];
    } else if !Contains(raw, "://") {
      var c := "https://" + raw;
      assert c[5..8] == "://";
      ContainsAt(c, "://", 5);
      assert c[0] == 'h';
      assert raw != [] ==> c[|c| - 1] == raw[|raw| - 1];
    } else {
      var i := ContainsWitness(raw, "://");
      assert raw[0] != '/' ==> !StartsWith(raw, "//");
    }
  }

  /** On text with no surrounding whitespace, `_normalize_url` is the
      http(s) check of the prefixed text. */
  lemma NormalizeTrimmed(raw: string)
    requires IsTrimmed(raw)
    ensures NormalizeUrl(Some(raw)) == if IsHttpUrl(Prefixed(raw)) then Ok(Prefixed(raw)) else Err(UrlInvalid)
  {
    StripTrimmed(raw);
  }

  /** An http(s) URL with a host starts with its scheme and contains `://`. */
  lemma HttpUrlShape(u: string)
    requires IsHttpUrl(u)
    ensures |u| > 0 && IsAsciiLetter(u[0]) && !StartsWith(u, "//") && Contains(u, "://")
  {
    HttpUrlPrefix(u);
    FirstCharBlocksPrefix(u, "//");
    ContainsAt(u, "://", |Parse(u).scheme|);
  }

  /** An http(s) URL with a host starts with its scheme, followed by `://`. */
  lemma HttpUrlPrefix(u: string)
    requires IsHttpUrl(u)
    ensures var n := |Parse(u).scheme|;
      && 0 < n && n + 3 <= |u| && IsAsciiLetter(u[0]) && u[n..n + 3] == "://"
  {
    var t := u[..|Parse(u).scheme|];
    assert IsSchemeToken(t) && t[0] == u[0];
  }

  /** The strings `_normalize_url` returns unchanged are exactly the trimmed
      http(s) URLs with a host. */
  lemma {:induction false} NormalizeUrlFixedPoints(u: string)
    ensures NormalizeUrl(Some(u)) == Ok(u) <==> IsTrimmed(u) && IsHttpUrl(u)
  {
    if IsTrimmed(u) && IsHttpUrl(u) {
      StripTrimmed(u);
      HttpUrlShape(u);
    }
  }

  /** Normalising a normalised URL returns it unchanged. */
  lemma NormalizeUrlIdempotent(url: Option<string>)
    requires NormalizeUrl(url).Ok?
    ensures NormalizeUrl(Some(NormalizeUrl(url).value)) == NormalizeUrl(url)
  {
    NormalizeUrlFixedPoints(NormalizeUrl(url).value);
  }

  /** `URLMap.validate_custom`: `None` and blank input mean "no custom slug";
      otherwise the stripped slug is returned when it is 1 to 16 ASCII letters
      or digits, is not reserved in any letter case, and (with `checkUnique`)
      is not stored yet. A bad format is `SlugInvalid`; a reserved or stored
      slug is `SlugConflict`. */
  function ValidateCustom(custom: Option<string>, checkUnique: bool, rows: map<string, string>)
    : (r: Result<Option<string>, ModelError>)
    ensures r == Ok(None) <==> custom.None? || Strip(custom.value) == ""
    ensures r.Ok? && r.value.Some? ==>
      && custom.Some? && r.value.value == Strip(custom.value)
      && IsShortFormat(r.value.value) && !IsReserved(r.value.value)
      && (checkUnique ==> r.value.value !in rows)
    ensures r == Err(SlugInvalid) <==>
      custom.Some? && Strip(custom.value) != "" && !IsShortFormat(Strip(custom.value))
    ensures r == Err(SlugConflict) <==>
      && custom.Some? && IsShortFormat(Strip(custom.value))
      && (IsReserved(Strip(custom.value)) || (checkUnique && Strip(custom.value) in rows))
    ensures r.Err? ==> r.error == SlugInvalid || r.error == SlugConflict
  {
    match custom
    case None => Ok(None)
    case Some(c) =>
      var s := Strip(c);
      if s == "" then Ok(None)
      else if |s| > 16 || !AllAlnum(s) then Err(SlugInvalid)
      else if Lower(s) in RESERVED then Err(SlugConflict)
      else if checkUnique && s in rows then Err(SlugConflict)
      else Ok(Some(s))
  }

  /** Any letter-case spelling of `files` passes the format check and is then
      refused as a conflict, never as an invalid slug. */
  lemma ReservedIsConflict(custom: string, checkUnique: bool, rows: map<string, string>)
    requires Lower(Strip(custom)) == "files"
    ensures ValidateCustom(Some(custom), checkUnique, rows) == Err(SlugConflict)
  {
    var s := Strip(custom);
    assert |s| == 5;
    forall i | 0 <= i < 5 ensures IsAsciiAlnum(s[i]) {
      assert LowerChar(s[i]) == "files"[i];
    }
  }

  /** `FILES` and `Files` are refused as reserved. */
  lemma ReservedSpellings()
    ensures ValidateCustom(Some("FILES"), false, map[]) == Err(SlugConflict)
    ensures ValidateCustom(Some("Files"), false, map[]) == Err(SlugConflict)
  {
    StripTrimmed("FILES");
    StripTrimmed("Files");
    LowerFiles("FILES");
    LowerFiles("Files");
    ReservedIsConflict("FILES", false, map[]);
    ReservedIsConflict("Files", false, map[]);
  }

  /** ` files ` is stripped before the reserved check. */
  lemma ReservedAfterStrip()
    ensures ValidateCustom(Some(" files "), false, map[]) == Err(SlugConflict)
  {
    StripSurrounding("files");
    assert " files " == " " + "files" + " ";
    LowerFiles("files");
    ReservedIsConflict(" files ", false, map[]);
  }

  lemma LowerFiles(s: string)
    requires s == "FILES" || s == "Files" || s == "files"
    ensures Lower(s) == "files"
  {
    assert Lower(s)[0] == 'f';
    assert Lower(s)[1] == 'i';
    assert Lower(s)[2] == 'l';
    assert Lower(s)[3] == 'e';
    assert Lower(s)[4] == 's';
  }

  /** `URLMap.get_by_short`: strips the argument and answers `None` without
      looking at the table unless it matches `SHORT_RE`; otherwise it looks
      the code up. */
  function GetByShort(rows: map<string, string>, shortId: Option<string>): (r: Option<Mapping>)
    ensures r.Some? <==> IsShortFormat(Strip(shortId.GetOr(""))) && Strip(shortId.GetOr("")) in rows
    ensures r.Some? ==> r.value == Mapping(Strip(shortId.GetOr("")), rows[Strip(shortId.GetOr(""))])
  {
    var s := Strip(shortId.GetOr(""));
    if !IsShortFormat(s) then None
    else if s in rows then Some(Mapping(s, rows[s]))
    else None
  }

  /** The first attempt, from attempt `k` on, whose generated code is not in
      the table: every earlier attempt drew a stored code. */
  function FirstFree(rows: map<string, string>, draws: seq<Index>, k: nat, attempts: int)
    : (j: Option<nat>)
    requires SHORT_LEN * attempts <= |draws|
    ensures j.Some? ==> k <= j.value < attempts && NthCode(SHORT_LEN, draws, j.value) !in rows
    ensures forall i :: k <= i < (if j.Some? then j.value else attempts) ==>
      NthCode(SHORT_LEN, draws, i) in rows
    decreases attempts - k
  {
    if k >= attempts then None
    else if NthCode(SHORT_LEN, draws, k) !in rows then Some(k)
    else FirstFree(rows, draws, k + 1, attempts)
  }

  /** The commit at the end of `create_one`: a uniqueness violation is rolled
      back and reported as `SlugConflict`. */
  function CommitOutcome(rows: map<string, string>, slug: string, original: string, contended: bool)
    : (r: Result<Mapping, ModelError>)
    ensures r.Ok? <==> slug !in rows && !contended
    ensures r.Ok? ==> r.value == Mapping(slug, original)
    ensures r.Err? ==> r.error == SlugConflict
  {
    if slug in rows || contended then Err(SlugConflict) else Ok(Mapping(slug, original))
  }

  /** What `URLMap.create_one` returns for a table, given the injected random
      positions and whether the commit loses a race to another writer. */
  function CreateOneOutcome(rows: map<string, string>, originalUrl: Option<string>,
                            customSlug: Option<string>, attempts: int, draws: seq<Index>,
                            contended: bool): Result<Mapping, ModelError>
    requires SHORT_LEN * attempts <= |draws|
  {
    match NormalizeUrl(originalUrl)
    case Err(e) => Err(e)
    case Ok(original) =>
      AllocateOutcome(rows, original, Strip(customSlug.GetOr("")), attempts, draws, contended)
  }

  /** `create_one` once the URL is normalised: a non-blank stripped slug is
      the custom path, a blank one the generated path. */
  function AllocateOutcome(rows: map<string, string>, original: string, slug: string,
                           attempts: int, draws: seq<Index>, contended: bool)
    : Result<Mapping, ModelError>
    requires SHORT_LEN * attempts <= |draws|
  {
    if slug != "" then CustomOutcome(rows, original, slug, contended)
    else AutoOutcome(rows, original, attempts, draws, contended)
  }

  /** The checks `create_one` makes on a non-blank (stripped) custom slug
      before touching the table: format, then reserved word, then the
      pre-check for an existing row. */
  function CustomCheck(rows: map<string, string>, slug: string): (e: Option<ModelError>)
    ensures e.None? <==> IsShortFormat(slug) && !IsReserved(slug) && slug !in rows
    ensures e == Some(SlugInvalid) <==> !IsShortFormat(slug)
    ensures e.Some? ==> e.value == SlugInvalid || e.value == SlugConflict
  {
    if !IsShortFormat(slug) then Some(SlugInvalid)
    else if IsReserved(slug) then Some(SlugConflict)
    else if slug in rows then Some(SlugConflict)
    else None
  }

  /** `create_one` with a non-blank (stripped) custom slug: the checks, then
      the commit. */
  function CustomOutcome(rows: map<string, string>, original: string, slug: string, contended: bool)
    : Result<Mapping, ModelError>
  {
    match CustomCheck(rows, slug)
    case Some(e) => Err(e)
    case None => CommitOutcome(rows, slug, original, contended)
  }

  /** `create_one` without a custom slug: the code of the first free attempt
      is committed; `RuntimeError` when no attempt found a free code. */
  function AutoOutcome(rows: map<string, string>, original: string, attempts: int,
                       draws: seq<Index>, contended: bool): Result<Mapping, ModelError>
    requires SHORT_LEN * attempts <= |draws|
  {
    match FirstFree(rows, draws, 0, attempts)
    case None => Err(GenerationFailed)
    case Some(j) => CommitOutcome(rows, NthCode(SHORT_LEN, draws, j), original, contended)
  }

  /** A generated code has six characters, so it can never be the
      five-character reserved word. */
  lemma GeneratedNotReserved(code: string)
    requires |code| == SHORT_LEN
    ensures !IsReserved(code)
  {
    assert |Lower(code)| == 6;
  }

  /** The custom-slug path: success stores exactly the slug, which was free,
      well formed and not reserved; a malformed slug is `SlugInvalid`; a
      conflict comes from the reserved word, a stored row or a lost race. */
  lemma CustomOutcomeCases(rows: map<string, string>, original: string, slug: string, contended: bool)
    ensures var r := CustomOutcome(rows, original, slug, contended);
      && (r.Ok? <==> IsShortFormat(slug) && !IsReserved(slug) && slug !in rows && !contended)
      && (r.Ok? ==> r.value == Mapping(slug, original))
      && (r == Err(SlugInvalid) <==> !IsShortFormat(slug))
      && (r.Err? ==> r.error == SlugInvalid || r.error == SlugConflict)
  {
  }

  /** The generated-code path: success stores the code of the first free
      attempt; `GenerationFailed` exactly when every attempt drew a stored
      code; success exactly when some attempt drew a free code and the commit
      did not lose a race, since a lost commit is not retried. */
  lemma AutoOutcomeCases(rows: map<string, string>, original: string, attempts: int,
                         draws: seq<Index>, contended: bool)
    requires SHORT_LEN * attempts <= |draws|
    ensures var r := AutoOutcome(rows, original, attempts, draws, contended);
      && (r.Ok? ==> FirstFree(rows, draws, 0, attempts).Some?
                    && r.value == Mapping(NthCode(SHORT_LEN, draws, FirstFree(rows, draws, 0, attempts).value), original)
                    && r.value.short !in rows
                    && IsShortFormat(r.value.short) && !IsReserved(r.value.short))
      && (r == Err(GenerationFailed) <==> forall i :: 0 <= i < attempts ==> NthCode(SHORT_LEN, draws, i) in rows)
      && (r.Err? ==> r.error == GenerationFailed || (r.error == SlugConflict && contended))
      && (r.Ok? <==> FirstFree(rows, draws, 0, attempts).Some? && !contended)
  {
    var r := AutoOutcome(rows, original, attempts, draws, contended);
    var first := FirstFree(rows, draws, 0, attempts);
    if first.Some? {
      var code := NthCode(SHORT_LEN, draws, first.value);
      assert code !in rows;
      assert r == CommitOutcome(rows, code, original, contended);
      GeneratedNotReserved(code);
    }
  }

  /** How `create_one` dispatches once the URL is normalised. */
  lemma CreateOneDispatch(rows: map<string, string>, url: Option<string>, custom: Option<string>,
                          attempts: int, draws: seq<Index>, contended: bool)
    requires SHORT_LEN * attempts <= |draws|
    ensures var r := CreateOneOutcome(rows, url, custom, attempts, draws, contended);
      var slug := Strip(custom.GetOr(""));
      && (NormalizeUrl(url).Err? ==> r == Err(UrlInvalid))
      && (NormalizeUrl(url).Ok? && slug != "" ==>
            r == CustomOutcome(rows, NormalizeUrl(url).value, slug, contended))
      && (NormalizeUrl(url).Ok? && slug == "" ==>
            r == AutoOutcome(rows, NormalizeUrl(url).value, attempts, draws, contended))
  {
  }

  /** A successful `create_one` stores the normalised URL under a code that
      was not stored before, has the canonical format and is not reserved:
      the stripped custom slug when one was given, otherwise the code of the
      first attempt whose code was free (`FirstFree`). */
  lemma CreateOneSuccess(rows: map<string, string>, url: Option<string>, custom: Option<string>,
                         attempts: int, draws: seq<Index>, contended: bool)
    requires SHORT_LEN * attempts <= |draws|
    ensures var r := CreateOneOutcome(rows, url, custom, attempts, draws, contended);
      var slug := Strip(custom.GetOr(""));
      r.Ok? ==>
        && NormalizeUrl(url) == Ok(r.value.original)
        && r.value.short !in rows
        && IsShortFormat(r.value.short) && !IsReserved(r.value.short)
        && (slug != "" ==> r.value.short == slug)
        && (slug == "" ==> FirstFree(rows, draws, 0, attempts).Some?
                           && r.value.short == NthCode(SHORT_LEN, draws, FirstFree(rows, draws, 0, attempts).value))
  {
    CreateOneDispatch(rows, url, custom, attempts, draws, contended);
    var n := NormalizeUrl(url);
    if n.Ok? {
      var slug := Strip(custom.GetOr(""));
      if slug != "" {
        CustomOutcomeCases(rows, n.value, slug, contended);
      } else {
        AutoOutcomeCases(rows, n.value, attempts, draws, contended);
      }
    }
  }

  /** The failures of `create_one`: an invalid URL is reported before any
      slug check; a non-blank slug of the wrong format is `SlugInvalid`;
      auto-generation fails exactly when every one of the `attempts` codes is
      already stored (always, when `attempts` is 0 or less); a conflict means
      a well-formed custom slug that is reserved, stored or loses its commit,
      or a generated code whose commit loses, which is not retried. */
  lemma CreateOneFailures(rows: map<string, string>, url: Option<string>, custom: Option<string>,
                          attempts: int, draws: seq<Index>, contended: bool)
    requires SHORT_LEN * attempts <= |draws|
    ensures var r := CreateOneOutcome(rows, url, custom, attempts, draws, contended);
      var slug := Strip(custom.GetOr(""));
      && (r == Err(UrlInvalid) <==> NormalizeUrl(url).Err?)
      && (r == Err(SlugInvalid) <==> NormalizeUrl(url).Ok? && slug != "" && !IsShortFormat(slug))
      && (r == Err(GenerationFailed) <==>
            NormalizeUrl(url).Ok? && slug == ""
            && forall i :: 0 <= i < attempts ==> NthCode(SHORT_LEN, draws, i) in rows)
      && (r == Err(SlugConflict) ==> contended || (slug != "" && (IsReserved(slug) || slug in rows)))
      && (r == Err(SlugConflict) <==>
            NormalizeUrl(url).Ok?
            && if slug != "" then IsShortFormat(slug) && (IsReserved(slug) || slug in rows || contended)
               else FirstFree(rows, draws, 0, attempts).Some? && contended)
  {
    CreateOneDispatch(rows, url, custom, attempts, draws, contended);
    var n := NormalizeUrl(url);
    if n.Ok? {
      var slug := Strip(custom.GetOr(""));
      if slug != "" {
        CustomOutcomeCases(rows, n.value, slug, contended);
      } else {
        AutoOutcomeCases(rows, n.value, attempts, draws, contended);
      }
    }
  }

  /** `create_one` keeps the table well formed: it never stores a malformed
      or reserved code, nor a URL without an http(s) scheme and a host. */
  lemma CreateOnePreservesWellFormed(rows: map<string, string>, url: Option<string>,
                                     custom: Option<string>, attempts: int, draws: seq<Index>,
                                     contended: bool)
    requires SHORT_LEN * attempts <= |draws|
    requires WellFormed(rows)
    ensures WellFormed(AfterCreate(rows, CreateOneOutcome(rows, url, custom, attempts, draws, contended)))
  {
    var r := CreateOneOutcome(rows, url, custom, attempts, draws, contended);
    CreateOneSuccess(rows, url, custom, attempts, draws, contended);
    if r.Ok? {
      var after := AfterCreate(rows, r);
      forall k | k in after ensures IsShortFormat(k) && !IsReserved(k) && IsHttpUrl(after[k]) {
        if k != r.value.short {
          assert k in rows && after[k] == rows[k];
        }
      }
    }
  }

  /** After a successful `create_one`, `get_by_short` on the new code returns
      the new row, whose original is the normalised URL. */
  lemma CreateOneThenGet(rows: map<string, string>, url: Option<string>, custom: Option<string>,
                         attempts: int, draws: seq<Index>, contended: bool)
    requires SHORT_LEN * attempts <= |draws|
    ensures var r := CreateOneOutcome(rows, url, custom, attempts, draws, contended);
      r.Ok? ==>
        && GetByShort(AfterCreate(rows, r), Some(r.value.short)) == Some(r.value)
        && NormalizeUrl(url) == Ok(r.value.original)
  {
    var r := CreateOneOutcome(rows, url, custom, attempts, draws, contended);
    if r.Ok? {
      CreateOneSuccess(rows, url, custom, attempts, draws, contended);
      ShortFormatTrimmed(r.value.short);
      var after := AfterCreate(rows, r);
      assert r.value.short in after && after[r.value.short] == r.value.original;
    }
  }

  /** A code of the canonical format has no surrounding space, so stripping
      it is the identity. */
  lemma ShortFormatTrimmed(s: string)
    requires IsShortFormat(s)
    ensures Strip(s) == s
  {
    assert IsAsciiAlnum(s[0]) && IsAsciiAlnum(s[|s| - 1]);
    StripTrimmed(s);
  }

  /** Once a custom slug is allocated, asking for it again is a conflict
      (or an invalid URL, which is checked first). */
  lemma CustomSlugTaken(rows: map<string, string>, url1: Option<string>, url2: Option<string>,
                        custom: string, attempts: int, draws: seq<Index>, c1: bool, c2: bool)
    requires SHORT_LEN * attempts <= |draws|
    requires CreateOneOutcome(rows, url1, Some(custom), attempts, draws, c1).Ok?
    requires Strip(custom) != ""
    ensures var after := AfterCreate(rows, CreateOneOutcome(rows, url1, Some(custom), attempts, draws, c1));
      CreateOneOutcome(after, url2, Some(custom), attempts, draws, c2)
        == if NormalizeUrl(url2).Ok? then Err(SlugConflict) else Err(UrlInvalid)
  {
    var r := CreateOneOutcome(rows, url1, Some(custom), attempts, draws, c1);
    CreateOneSuccess(rows, url1, Some(custom), attempts, draws, c1);
    var after := AfterCreate(rows, r);
    assert Strip(custom) in after;
    CreateOneDispatch(after, url2, Some(custom), attempts, draws, c2);
  }

  /** `URLMap.create_one`. */
  method CreateOne(table: Table, originalUrl: Option<string>, customSlug: Option<string>,
                   attempts: int, draws: seq<Index>, contended: bool)
    returns (r: Result<Mapping, ModelError>)
    requires SHORT_LEN * attempts <= |draws|
    modifies table
    ensures r == CreateOneOutcome(old(table.rows), originalUrl, customSlug, attempts, draws, contended)
    ensures table.rows == AfterCreate(old(table.rows), r)
  {
    var normalized := NormalizeUrl(originalUrl);
    if normalized.Err? {
      return Err(normalized.error);
    }
    r := Allocate(table, normalized.value, Strip(customSlug.GetOr("")), attempts, draws, contended);
  }

  /** The part of `create_one` after normalisation: checks the custom slug
      or generates one, then commits. */
  method Allocate(table: Table, original: string, slug: string, attempts: int,
                  draws: seq<Index>, contended: bool)
    returns (r: Result<Mapping, ModelError>)
    requires SHORT_LEN * attempts <= |draws|
    modifies table
    ensures r == AllocateOutcome(old(table.rows), original, slug, attempts, draws, contended)
    ensures table.rows == AfterCreate(old(table.rows), r)
  {
    var code := slug;
    if slug != "" {
      var rejected := CustomCheck(table.rows, slug);
      if rejected.Some? {
        return Err(rejected.value);
      }
    } else {
      code := PickFreeCode(table, attempts, draws);
      if code == "" {
        return Err(GenerationFailed);
      }
    }
    var committed := table.Insert(code, original, contended);
    if committed == UniquenessViolation {
      return Err(SlugConflict);
    }
    return Ok(Mapping(code, original));
  }

  /** The generation loop of `create_one`: up to `attempts` generated codes,
      stopping at the first one that is not stored; the empty string when
      every one was taken. */
  method PickFreeCode(table: Table, attempts: int, draws: seq<Index>) returns (slug: string)
    requires SHORT_LEN * attempts <= |draws|
    ensures slug == match FirstFree(table.rows, draws, 0, attempts)
                    case None => ""
                    case Some(j) => NthCode(SHORT_LEN, draws, j)
  {
    slug := "";
    var k: nat := 0;
    while k < attempts
      invariant k <= attempts || k == 0
      invariant FirstFree(table.rows, draws, k, attempts) == FirstFree(table.rows, draws, 0, attempts)
    {
      var guess := Generate(SHORT_LEN, draws[SHORT_LEN * k..SHORT_LEN * (k + 1)]);
      if guess !in table.rows {
        slug := guess;
        break;
      }
      k := k + 1;
    }
  }
}
