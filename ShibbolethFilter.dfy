/** The extraction half of `ShibbolethFilter`: on a login request it reads the
    five identity attributes the identity provider asserts (from HTTP headers or
    from request attributes), normalises them and caches them in the HTTP
    session, once per session, for the auto-login hook to pick up. */
module ShibbolethFilter {
  import opened JavaLang
  import opened Validator
  import opened Servlet
  import opened ShibbolethConfig

  /** Stored in place of an absent first name or surname. */
  const MISSING_FIRST_NAME := "MissingFirstName"
  const MISSING_SURNAME := "MissingSurname"

  /** How a call of `extractData` ended: it returned true or false, or threw. */
  datatype Outcome = Returned(extracted: bool) | Threw(exception: JavaException)

  /** The outcome of `extractData` with the session it leaves behind. */
  datatype Extraction = Extraction(outcome: Outcome, session: map<string, string>)

  // ---------------------------------------------------------------------------
  // getHeader
  // ---------------------------------------------------------------------------

  /** `getHeader`: null for a null configured name, otherwise the header of
      that name when headers are enabled and the request attribute of that name
      when they are not. A value is there exactly when the name is not null
      and the selected namespace holds it, and it is what that namespace
      holds. */
  function GetHeader(headerName: string, request: Request, headersEnabled: bool): (value: Option<string>)
    ensures var from := if headersEnabled then request.headers else request.attributes;
      && (value.Some? <==> !IsNullText(headerName) && headerName in from)
      && (value.Some? ==> value.value == from[headerName])
  {
    if IsNull(Some(headerName)) then None
    else if headersEnabled then Get(request.headers, headerName)
    else Get(request.attributes, headerName)
  }

  /** `getHeader` reads one namespace only: the one the flag selects. */
  lemma GetHeaderReadsOneNamespace(headerName: string, headers: map<string, string>,
                                   attributes: map<string, string>, request: Request)
    ensures GetHeader(headerName, Request(headers, attributes), true)
         == GetHeader(headerName, Request(headers, request.attributes), true)
    ensures GetHeader(headerName, Request(headers, attributes), false)
         == GetHeader(headerName, Request(request.headers, attributes), false)
    ensures IsNullText(headerName) ==> GetHeader(headerName, request, true) == GetHeader(headerName, request, false) == None
  {
  }

  // ---------------------------------------------------------------------------
  // Screen-name transform
  // ---------------------------------------------------------------------------

  /** The screen-name transform: `@` becomes `.at.`, then `_` becomes `-`. Each
      rewrite is guarded by a `contains` test; the result is the same as doing
      both rewrites unconditionally, and holds neither character. */
  function TransformScreenName(login: string): (screenName: string)
    ensures screenName == ReplaceAll(ReplaceAll(login, '@', ".at."), '_', "-")
    ensures '@' !in screenName && '_' !in screenName
  {
    var login' := if '@' in login then ReplaceAll(login, '@', ".at.") else login;
    ReplaceAllChars(login', '_', "-");
    if '_' in login' then ReplaceAll(login', '_', "-") else login'
  }

  /** The login the filter stores: transformed when the transform is enabled,
      verbatim when it is not. */
  function StoredLogin(login: string, transform: bool): string
  {
    if transform then TransformScreenName(login) else login
  }

  /** The transform is idempotent. */
  lemma TransformIdempotent(login: string)
    ensures TransformScreenName(TransformScreenName(login)) == TransformScreenName(login)
  {
  }

  /** The transform never turns a login that passed the null test into one that
      fails it, so a stored login always marks the session as extracted. */
  lemma StoredLoginNotNull(login: string, transform: bool)
    requires !IsNullText(login)
    ensures !IsNullText(StoredLogin(login, transform))
  {
    var t := TransformScreenName(login);
    if transform {
      var login' := ReplaceAll(login, '@', ".at.");
      ReplaceAllChars(login, '@', ".at.");
      ReplaceAllChars(login', '_', "-");
      if '@' in login {
        assert '.' in login';
        NotNullWith(t, '.');
      } else if '_' in login {
        assert '-' in t;
        NotNullWith(t, '-');
      }
    }
  }

  /** A login of the form `user@domain`, with no `_`, becomes `user.at.domain`. */
  lemma TransformAddress(user: string, domain: string)
    requires '@' !in user && '@' !in domain
    requires '_' !in user && '_' !in domain
    ensures TransformScreenName(user + "@" + domain) == user + ".at." + domain
  {
    var t := user + ".at." + domain;
    assert ReplaceAll(user + "@" + domain, '@', ".at.") == t by {
      ReplaceAllAppend(user + "@", domain, '@', ".at.");
      ReplaceAllAppend(user, "@", '@', ".at.");
      assert ReplaceAll("@", '@', ".at.") == ".at.";
    }
    assert '_' !in t by {
      assert forall i | 0 <= i < |t| :: t[i] in user || t[i] in ".at." || t[i] in domain;
    }
  }

  // ---------------------------------------------------------------------------
  // E-mail, names, affiliation
  // ---------------------------------------------------------------------------

  /** The e-mail the filter stores: a multi-valued address is cut to the text
      before its first `;`. None where `emails[0]` throws because `split` left
      nothing, which happens exactly when the value is made of `;` only. */
  function StoredEmail(email: string): (stored: Option<string>)
  {
    if ';' in email then
      var emails := Split(email, ';');
      if |emails| == 0 then None else Some(emails[0])
    else
      Some(email)
  }

  lemma StoredEmailFirst(email: string)
    ensures StoredEmail(email).None? <==> |email| > 0 && forall i | 0 <= i < |email| :: email[i] == ';'
    ensures StoredEmail(email).Some? ==>
      var stored := StoredEmail(email).value;
      stored <= email && ';' !in stored &&
      (|stored| < |email| ==> email[|stored|] == ';')
  {
    if ';' in email {
      SplitEmpty(email, ';');
      SplitPieces(email, ';');
      FirstPiece(email, ';');
    } else {
      assert |email| > 0 ==> email[0] in email;
    }
  }

  /** A name as stored: the placeholder when the attribute is null. */
  function NameOrPlaceholder(name: Option<string>, placeholder: string): string
  {
    if IsNull(name) then placeholder else name.value
  }

  /** `parts[parts.length - 1]` of `entry.split(":")`: the last non-empty
      `:`-segment. None where `split` leaves nothing and the index is -1,
      which happens exactly when the entry is made of `:` only. */
  function LastSegment(entry: string): (segment: Option<string>)
    ensures segment.Some? ==> ':' !in segment.value
    ensures ':' !in entry ==> segment == Some(entry)
  {
    var parts := Split(entry, ':');
    SplitEmpty(entry, ':');
    if |parts| == 0 then None
    else Some(parts[|parts| - 1])
  }

  /** `parts[parts.length - 1]` throws exactly on an entry of `:` only. */
  lemma LastSegmentFails(entry: string)
    ensures LastSegment(entry).None? <==> |entry| > 0 && forall i | 0 <= i < |entry| :: entry[i] == ':'
  {
    SplitEmpty(entry, ':');
  }

  /** The last segment holds only characters of the entry. */
  lemma LastSegmentAvoids(entry: string, c: char)
    requires c !in entry
    ensures LastSegment(entry).Some? ==> c !in LastSegment(entry).value
  {
    PiecesAvoid(entry, ':', c);
    SplitPieces(entry, ':');
  }

  /** The last segments of the entries, in their order; None when some entry
      has none. */
  function Segments(entries: seq<string>): Option<seq<string>>
  {
    if entries == [] then Some([])
    else
      var n := |entries| - 1;
      match Segments(entries[..n])
      case None => None
      case Some(front) =>
        match LastSegment(entries[n])
        case None => None
        case Some(last) => Some(front + [last])
  }

  /** `Segments` succeeds exactly when every entry has a last segment, and
      then it lists them entry by entry. */
  lemma {:induction false} SegmentsEntryWise(entries: seq<string>)
    ensures Segments(entries).Some? ==>
      |Segments(entries).value| == |entries| &&
      forall k | 0 <= k < |entries| :: LastSegment(entries[k]) == Some(Segments(entries).value[k])
    ensures Segments(entries).None? ==> exists k | 0 <= k < |entries| :: LastSegment(entries[k]).None?
  {
    if entries != [] {
      var n := |entries| - 1;
      SegmentsEntryWise(entries[..n]);
      if Segments(entries[..n]).None? {
        var k :| 0 <= k < n && LastSegment(entries[..n][k]).None?;
        assert entries[k] == entries[..n][k];
      }
    }
  }

  /** A multi-valued affiliation with each `;`-entry cut to its last
      `:`-segment, re-joined with `;` in the original order; None when some
      entry throws. */
  function MultiValuedTruncation(affiliation: string): Option<string>
  {
    match Segments(Split(affiliation, ';'))
    case None => None
    case Some(segments) => Some(Join(segments, ';'))
  }

  /** The affiliation the filter stores: "" for a null one; with truncation on
      and a `:` present, the namespaces stripped (entry by entry when
      multi-valued); verbatim otherwise. None where the code throws. */
  function StoredAffiliation(affiliation: Option<string>, truncate: bool): Option<string>
  {
    var a := if IsNull(affiliation) then "" else affiliation.value;
    if truncate && ':' in a then
      if ';' in a then MultiValuedTruncation(a) else LastSegment(a)
    else Some(a)
  }

  /** Without truncation, or without a `:`, the affiliation is stored verbatim,
      and a null one as "". */
  lemma AffiliationVerbatim(affiliation: Option<string>, truncate: bool)
    ensures IsNull(affiliation) ==> StoredAffiliation(affiliation, truncate) == Some("")
    ensures !IsNull(affiliation) && (!truncate || ':' !in affiliation.value) ==>
      StoredAffiliation(affiliation, truncate) == Some(affiliation.value)
  {
  }

  /** The single-valued branch computes what the multi-valued loop would on a
      one-entry list. */
  lemma SingleEntryTruncation(affiliation: string)
    requires ';' !in affiliation
    ensures MultiValuedTruncation(affiliation) == LastSegment(affiliation)
  {
    var entries := Split(affiliation, ';');
    assert entries == [affiliation];
    assert entries[..0] == [];
    match LastSegment(affiliation)
    case None =>
    case Some(last) =>
      assert Segments(entries) == Some([] + [last]);
      assert Join([last], ';') == last;
  }

  /** A truncated affiliation holds no `:`; when multi-valued, its `;`-pieces
      are the last segments of the original entries, in their order. */
  lemma TruncatedAffiliation(affiliation: Option<string>)
    requires StoredAffiliation(affiliation, true).Some?
    ensures ':' !in StoredAffiliation(affiliation, true).value
    ensures affiliation.Some? && ':' in affiliation.value && ';' in affiliation.value ==>
      Segments(Split(affiliation.value, ';')).Some? &&
      Pieces(StoredAffiliation(affiliation, true).value, ';') == Segments(Split(affiliation.value, ';')).value
  {
    if affiliation.Some? && ':' in affiliation.value {
      NotNullWith(affiliation.value, ':');
      if ';' in affiliation.value {
        var entries := Split(affiliation.value, ';');
        var segments := Segments(entries).value;
        SegmentsEntryWise(entries);
        forall k | 0 <= k < |segments| ensures ':' !in segments[k] && ';' !in segments[k] {
          LastSegmentAvoids(entries[k], ';');
        }
        JoinAvoids(segments, ';', ':');
        assert |entries| > 0 by {
          SplitEmpty(affiliation.value, ';');
          var i :| 0 <= i < |affiliation.value| && affiliation.value[i] == ':';
        }
        PiecesJoin(segments, ';');
      }
    }
  }

  /** An eduPersonEntitlement-style entry `namespace:value` is cut to `value`,
      whatever the namespace. */
  lemma LastSegmentOfEntitlement(namespace: string, value: string)
    requires ':' !in value && value != ""
    ensures LastSegment(namespace + ":" + value) == Some(value)
  {
    var e := namespace + ":" + value;
    var ps := Pieces(e, ':');
    assert e == namespace + [':'] + value;
    LastPiece(namespace, ':', value);
    assert ':' in e by { assert e[|namespace|] == ':'; }
    assert DropTrailingEmpty(ps) == ps;
  }

  /** A trailing `:` changes nothing: the entry keeps its last non-empty
      segment. */
  lemma LastSegmentTrailingColon(entry: string)
    requires entry != ""
    ensures LastSegment(entry + ":") == LastSegment(entry)
  {
    var ps := Pieces(entry, ':');
    PiecesSnocDelimiter(entry, ':');
    assert ':' in entry + ":" by { assert (entry + ":")[|entry|] == ':'; }
    if ':' in entry {
      assert DropTrailingEmpty(ps + [""]) == DropTrailingEmpty(ps);
    } else {
      assert ps == [entry];
      assert DropTrailingEmpty(ps + [""]) == DropTrailingEmpty([entry]) == [entry];
    }
  }

  /** An entry of `:` alone throws. */
  lemma OnlyColonsThrow()
    ensures StoredAffiliation(Some(":"), true) == None
  {
    assert ":"[0] == ':';
    NotNullWith(":", ':');
  }

  /** A failing entry makes every list it belongs to fail. */
  lemma SegmentsFail(entries: seq<string>, i: nat)
    requires i < |entries| && LastSegment(entries[i]).None?
    ensures Segments(entries).None?
  {
    SegmentsEntryWise(entries);
  }

  /** One more entry adds its last segment at the end. */
  lemma SegmentsSnoc(entries: seq<string>, i: nat, front: seq<string>, last: string)
    requires i < |entries|
    requires Segments(entries[..i]) == Some(front)
    requires LastSegment(entries[i]) == Some(last)
    ensures Segments(entries[..i + 1]) == Some(front + [last])
  {
    assert entries[..i + 1][..i] == entries[..i];
  }

  /** The index loop that builds the truncated multi-valued affiliation, entry
      after entry, with a `;` after every entry but the last. */
  method TruncateMultiValued(affiliation: string) returns (truncated: Option<string>)
    ensures truncated == MultiValuedTruncation(affiliation)
  {
    var affiliations := Split(affiliation, ';');
    var n := |affiliations|;
    var result := "";
    ghost var segments: seq<string> := [];
    var i := 0;
    while i < n
      invariant 0 <= i <= n
      invariant Segments(affiliations[..i]) == Some(segments)
      invariant result == if i == 0 then "" else Join(segments, ';') + (if i < n then ";" else "")
    {
      var segment := LastSegment(affiliations[i]);  // parts[parts.length - 1] of split(":")
      if segment.None? {
        SegmentsFail(affiliations, i);
        return None;
      }
      SegmentsSnoc(affiliations, i, segments, segment.value);
      if i > 0 {
        JoinSnoc(segments, segment.value, ';');
      }
      segments := segments + [segment.value];
      result := result + segment.value;
      if i < n - 1 {
        result := result + ";";
      }
      i := i + 1;
    }
    assert affiliations[..n] == affiliations;
    assert MultiValuedTruncation(affiliation) == Some(Join(segments, ';'));
    if n == 0 {
      assert affiliations[..0] == [];
    } else {
      assert Join(segments, ';') + "" == Join(segments, ';');
    }
    return Some(result);
  }

  // ---------------------------------------------------------------------------
  // extractData
  // ---------------------------------------------------------------------------

  /** The five raw values `extractData` reads, each through `getHeader`. */
  datatype Attributes = Attributes(login: Option<string>, email: Option<string>, firstname: Option<string>,
                                   surname: Option<string>, affiliation: Option<string>)

  function ReadAttributes(config: Configuration, request: Request): Attributes
  {
    var h := config.headersEnabled;
    Attributes(GetHeader(config.userHeader, request, h), GetHeader(config.userEmailHeader, request, h),
               GetHeader(config.firstname, request, h), GetHeader(config.surname, request, h),
               GetHeader(config.userHeaderAffiliation, request, h))
  }

  /** The values `extractData` writes to the session, each as normalised; the
      e-mail and the affiliation are the exception their normalisation throws,
      where it throws. */
  datatype Values = Values(login: string, email: Result<string>, firstName: string, surname: string,
                           affiliation: Result<string>)

  /** The e-mail to store: a null e-mail throws on `contains`, one of `;` only
      on `emails[0]`. */
  function EmailToStore(email: Option<string>): Result<string>
  {
    if email.None? then Failure(NullPointerException)
    else match StoredEmail(email.value)
      case None => Failure(ArrayIndexOutOfBoundsException)
      case Some(e) => Success(e)
  }

  /** The affiliation to store; its truncation throws on an entry of `:` only. */
  function AffiliationToStore(affiliation: Option<string>, truncate: bool): Result<string>
  {
    match StoredAffiliation(affiliation, truncate)
    case None => Failure(ArrayIndexOutOfBoundsException)
    case Some(a) => Success(a)
  }

  /** The normalised values of attributes that carry a login. */
  function Normalise(config: Configuration, attributes: Attributes): Values
    requires attributes.login.Some?
  {
    Values(StoredLogin(attributes.login.value, config.screenameTransformEnabled),
           EmailToStore(attributes.email),
           NameOrPlaceholder(attributes.firstname, MISSING_FIRST_NAME),
           NameOrPlaceholder(attributes.surname, MISSING_SURNAME),
           AffiliationToStore(attributes.affiliation, config.affiliationTruncateEnabled))
  }

  /** The writes of `extractData`, in its order: the login, then the e-mail
      (or its exception), both names, then the affiliation (or its exception). */
  function Write(session: map<string, string>, values: Values): Extraction
  {
    var s := session[SHIBBOLETH_LOGIN := values.login];
    match values.email
    case Failure(x) => Extraction(Threw(x), s)
    case Success(e) =>
      var s' := s[SHIBBOLETH_HEADER_EMAIL := e][SHIBBOLETH_HEADER_FIRSTNAME := values.firstName]
                 [SHIBBOLETH_HEADER_SURNAME := values.surname];
      match values.affiliation
      case Failure(x) => Extraction(Threw(x), s')
      case Success(a) => Extraction(Returned(true), s'[SHIBBOLETH_HEADER_AFFILIATION := a])
  }

  /** What `extractData` does to a session, as a function of the session, the
      configuration and the request: nothing when the session already holds a
      login or the request carries none, the writes otherwise. */
  function Extract(session: map<string, string>, config: Configuration, request: Request): Extraction
  {
    if !IsNull(Get(session, SHIBBOLETH_LOGIN)) then Extraction(Returned(false), session)
    else
      var attributes := ReadAttributes(config, request);
      if IsNull(attributes.login) then Extraction(Returned(false), session)
      else Write(session, Normalise(config, attributes))
  }

  /** The login steps of `extractData`: the screen-name transform, each
      rewrite guarded by its `contains` test. */
  method NormaliseLogin(login: string, transform: bool) returns (screenName: string)
    ensures screenName == StoredLogin(login, transform)
  {
    screenName := login;
    if transform {
      if '@' in screenName {
        screenName := ReplaceAll(screenName, '@', ".at.");
      }
      if '_' in screenName {
        screenName := ReplaceAll(screenName, '_', "-");
      }
    }
  }

  /** The e-mail steps of `extractData`: the first of a multi-valued address. */
  method NormaliseEmail(email: Option<string>) returns (emailAddress: Result<string>)
    ensures emailAddress == EmailToStore(email)
  {
    if email.None? {
      return Failure(NullPointerException);  // aaiProvidedEmail.contains(";") on null
    }
    var address := email.value;
    if ';' in address {
      var emails := Split(address, ';');
      if |emails| == 0 {
        return Failure(ArrayIndexOutOfBoundsException);
      }
      address := emails[0];
    }
    return Success(address);
  }

  /** The affiliation steps of `extractData`: "" for a null one, and the
      namespaces stripped when truncation is on and a `:` is present. */
  method NormaliseAffiliation(affiliation: Option<string>, truncate: bool) returns (result: Result<string>)
    ensures result == AffiliationToStore(affiliation, truncate)
  {
    var aff := if IsNull(affiliation) then "" else affiliation.value;
    if truncate && ':' in aff {
      if ';' in aff {
        var truncated := TruncateMultiValued(aff);
        if truncated.None? {
          return Failure(ArrayIndexOutOfBoundsException);
        }
        aff := truncated.value;
      } else {
        var parts := Split(aff, ':');
        if |parts| == 0 {
          return Failure(ArrayIndexOutOfBoundsException);
        }
        aff := parts[|parts| - 1];
      }
    }
    return Success(aff);
  }

  /** `extractData`: reads the attributes, then writes the session key by key. */
  method ExtractData(session: Session, config: Configuration, request: Request) returns (outcome: Outcome)
    modifies session
    ensures Extraction(outcome, session.attributes) == Extract(old(session.attributes), config, request)
  {
    var login := session.GetAttribute(SHIBBOLETH_LOGIN);
    if !IsNull(login) {
      return Returned(false);
    }
    var headersEnabled := config.headersEnabled;
    var loginName := GetHeader(config.userHeader, request, headersEnabled);
    var email := GetHeader(config.userEmailHeader, request, headersEnabled);
    var firstname := GetHeader(config.firstname, request, headersEnabled);
    var surname := GetHeader(config.surname, request, headersEnabled);
    var affiliation := GetHeader(config.userHeaderAffiliation, request, headersEnabled);
    ghost var attributes := Attributes(loginName, email, firstname, surname, affiliation);
    assert attributes == ReadAttributes(config, request);

    if IsNull(loginName) {
      return Returned(false);
    }
    ghost var values := Normalise(config, attributes);
    assert Extract(session.attributes, config, request) == Write(session.attributes, values);
    var screenName := NormaliseLogin(loginName.value, config.screenameTransformEnabled);
    session.SetAttribute(SHIBBOLETH_LOGIN, screenName);

    var emailAddress := NormaliseEmail(email);
    if emailAddress.Failure? {
      return Threw(emailAddress.error);
    }
    session.SetAttribute(SHIBBOLETH_HEADER_EMAIL, emailAddress.value);

    var firstName := if IsNull(firstname) then MISSING_FIRST_NAME else firstname.value;
    session.SetAttribute(SHIBBOLETH_HEADER_FIRSTNAME, firstName);
    var lastName := if IsNull(surname) then MISSING_SURNAME else surname.value;
    session.SetAttribute(SHIBBOLETH_HEADER_SURNAME, lastName);

    var aff := NormaliseAffiliation(affiliation, config.affiliationTruncateEnabled);
    if aff.Failure? {
      return Threw(aff.error);
    }
    session.SetAttribute(SHIBBOLETH_HEADER_AFFILIATION, aff.value);
    return Returned(true);
  }

  // ---------------------------------------------------------------------------
  // Properties of extractData
  // ---------------------------------------------------------------------------

  /** The five keys `extractData` may write. */
  predicate IsSessionKey(key: string)
  {
    key in {SHIBBOLETH_LOGIN, SHIBBOLETH_HEADER_EMAIL, SHIBBOLETH_HEADER_FIRSTNAME,
            SHIBBOLETH_HEADER_SURNAME, SHIBBOLETH_HEADER_AFFILIATION}
  }

  /** A session that already holds a login is returned untouched, with false,
      whatever the request carries. */
  lemma ExtractSkipsCachedSession(session: map<string, string>, config: Configuration, request: Request)
    requires !IsNull(Get(session, SHIBBOLETH_LOGIN))
    ensures Extract(session, config, request) == Extraction(Returned(false), session)
  {
  }

  /** Without a login attribute nothing is written and false is returned, even
      when the other attributes (the e-mail among them) are present. */
  lemma ExtractWithoutLogin(session: map<string, string>, config: Configuration, request: Request)
    requires IsNull(GetHeader(config.userHeader, request, config.headersEnabled))
    ensures Extract(session, config, request) == Extraction(Returned(false), session)
  {
  }

  /** The writes never return false, always store the login first, and touch
      the five session keys only. */
  lemma WriteStoresLogin(session: map<string, string>, values: Values, key: string)
    ensures Write(session, values).outcome != Returned(false)
    ensures Get(Write(session, values).session, SHIBBOLETH_LOGIN) == Some(values.login)
    ensures !IsSessionKey(key) ==> Get(Write(session, values).session, key) == Get(session, key)
  {
  }

  /** A null e-mail throws after the login is written, with the login as the
      only change to the session. */
  lemma ExtractWithoutEmail(session: map<string, string>, config: Configuration, request: Request)
    requires IsNull(Get(session, SHIBBOLETH_LOGIN))
    requires !IsNull(GetHeader(config.userHeader, request, config.headersEnabled))
    requires GetHeader(config.userEmailHeader, request, config.headersEnabled).None?
    ensures Extract(session, config, request) ==
      Extraction(Threw(NullPointerException),
                 session[SHIBBOLETH_LOGIN := StoredLogin(GetHeader(config.userHeader, request, config.headersEnabled).value,
                                                         config.screenameTransformEnabled)])
  {
  }

  /** Only the five session keys are ever written. */
  lemma ExtractWritesOnlySessionKeys(session: map<string, string>, config: Configuration, request: Request, key: string)
    requires !IsSessionKey(key)
    ensures Get(Extract(session, config, request).session, key) == Get(session, key)
  {
    var attributes := ReadAttributes(config, request);
    if IsNull(Get(session, SHIBBOLETH_LOGIN)) && !IsNull(attributes.login) {
      WriteStoresLogin(session, Normalise(config, attributes), key);
    }
  }

  /** Successful writes set all five keys, each to its value. */
  lemma WriteSucceeded(session: map<string, string>, values: Values)
    requires Write(session, values).outcome == Returned(true)
    ensures values.email.Success? && values.affiliation.Success?
    ensures var s := Write(session, values).session;
      && s.Keys == session.Keys + {SHIBBOLETH_LOGIN, SHIBBOLETH_HEADER_EMAIL, SHIBBOLETH_HEADER_FIRSTNAME,
                                   SHIBBOLETH_HEADER_SURNAME, SHIBBOLETH_HEADER_AFFILIATION}
      && s[SHIBBOLETH_LOGIN] == values.login
      && s[SHIBBOLETH_HEADER_EMAIL] == values.email.value
      && s[SHIBBOLETH_HEADER_FIRSTNAME] == values.firstName
      && s[SHIBBOLETH_HEADER_SURNAME] == values.surname
      && s[SHIBBOLETH_HEADER_AFFILIATION] == values.affiliation.value
  {
  }

  /** A successful extraction returns true only for a session without a login
      and a request with a login, whose e-mail and affiliation normalise
      without throwing; the session then holds what `Write` puts there. */
  lemma ExtractSucceeded(session: map<string, string>, config: Configuration, request: Request)
    requires Extract(session, config, request).outcome == Returned(true)
    ensures var attributes := ReadAttributes(config, request);
      && IsNull(Get(session, SHIBBOLETH_LOGIN)) && !IsNull(attributes.login)
      && Write(session, Normalise(config, attributes)) == Extract(session, config, request)
      && Normalise(config, attributes).email.Success?
      && Normalise(config, attributes).affiliation.Success?
  {
    var attributes := ReadAttributes(config, request);
    WriteSucceeded(session, Normalise(config, attributes));
  }

  /** The normalised values: the login as transformed (or verbatim), the first
      e-mail of a non-null address, names that are never null and the stored
      affiliation. */
  lemma NormalisedValues(config: Configuration, attributes: Attributes)
    requires attributes.login.Some?
    ensures var values := Normalise(config, attributes);
      && values.login == StoredLogin(attributes.login.value, config.screenameTransformEnabled)
      && (values.email.Success? <==> attributes.email.Some? && StoredEmail(attributes.email.value).Some?)
      && (values.email.Success? ==> Some(values.email.value) == StoredEmail(attributes.email.value))
      && !IsNullText(values.firstName) && !IsNullText(values.surname)
      && (values.affiliation.Success? <==> StoredAffiliation(attributes.affiliation, config.affiliationTruncateEnabled).Some?)
      && (values.affiliation.Success? ==>
            Some(values.affiliation.value) == StoredAffiliation(attributes.affiliation, config.affiliationTruncateEnabled))
  {
    var values := Normalise(config, attributes);
    assert values.email == EmailToStore(attributes.email);
    assert values.affiliation == AffiliationToStore(attributes.affiliation, config.affiliationTruncateEnabled);
    NotNullWith(MISSING_FIRST_NAME, 'M');
    NotNullWith(MISSING_SURNAME, 'M');
  }

  /** Extraction happens once per session: once a call has got past the login
      test (whether it then returned true or threw), every later call on the
      resulting session returns false and changes nothing, whatever its
      request. */
  lemma ExtractOncePerSession(session: map<string, string>, config: Configuration,
                              request: Request, later: Request)
    requires Extract(session, config, request).outcome != Returned(false)
    ensures var s := Extract(session, config, request).session;
      !IsNull(Get(s, SHIBBOLETH_LOGIN)) &&
      Extract(s, config, later) == Extraction(Returned(false), s)
  {
    var attributes := ReadAttributes(config, request);
    var values := Normalise(config, attributes);
    WriteStoresLogin(session, values, SHIBBOLETH_LOGIN);
    StoredLoginNotNull(attributes.login.value, config.screenameTransformEnabled);
  }
}
