/**
 The request layer of the client: the access-token store kept in browser
 storage under `access_token`, the two interceptors every request and response
 passes through, the authentication service's effect on the token, and the
 paths and query strings the services build. The HTTP exchange itself is not
 modelled: what the server answers is an input of each operation.
 */
module Api {
  import opened Core
  import opened JsStrings
  import opened UrlEncoding

  /** The storage key of the access token. */
  const TokenKey: string := "access_token"

  /** What browser storage holds under the token key (None when absent). */
  type TokenStore = Option<string>

  /** The base URL used when the build sets no `VITE_API_BASE_URL`. */
  const DefaultBaseUrl: string := "http://localhost:5000"

  /** `import.meta.env.VITE_API_BASE_URL || 'http://localhost:5000'`. */
  function BaseUrl(env: Option<string>): (r: string)
    ensures Truthy(env) ==> r == env.value
    ensures !Truthy(env) ==> r == DefaultBaseUrl
    ensures r != ""
  {
    if Truthy(env) then env.value else DefaultBaseUrl
  }

  // ---------------------------------------------------------------------------
  // Interceptors

  /** The `Authorization` header the request interceptor attaches, if any. */
  function AuthorizationHeader(store: TokenStore): (h: Option<string>)
    ensures h.Some? <==> Truthy(store)
    ensures h.Some? ==> h.value == "Bearer " + store.value
  {
    if Truthy(store) then Some("Bearer " + store.value) else None
  }

  /** A failed request: the HTTP status of the response, when there was one. */
  datatype HttpError = HttpError(status: Option<int>)

  /** The token store after the response interceptor has seen `error`. The
      error itself is re-rejected unchanged, so callers see the same error. */
  function AfterRejection(store: TokenStore, error: HttpError): (r: TokenStore)
    ensures error.status == Some(401) ==> r.None?
    ensures error.status != Some(401) ==> r == store
  {
    if error.status == Some(401) then None else store
  }

  /** A settled service call: the token store afterwards, and what the call
      resolves with or rejects with. */
  datatype Settled<+T> = Settled(store: TokenStore, result: Result<T, HttpError>)

  /** The server's answer to a login or sign-up request: its `accessToken`
      field, if present, and the rest of the body, kept opaque. */
  datatype AuthReply = AuthReply(accessToken: Option<string>, body: string)

  /** The token store after a login or sign-up request has settled with
      `reply`: a truthy `accessToken` is stored; a rejection goes through the
      response interceptor. */
  function StoreAfterAuth(store: TokenStore, reply: Result<AuthReply, HttpError>): (r: TokenStore)
    ensures reply.Ok? && Truthy(reply.value.accessToken) ==> r == reply.value.accessToken
    ensures reply.Ok? && !Truthy(reply.value.accessToken) ==> r == store
    ensures reply.Err? ==> r == AfterRejection(store, reply.error)
  {
    match reply
    case Ok(resp) => if Truthy(resp.accessToken) then resp.accessToken else store
    case Err(e) => AfterRejection(store, e)
  }

  /** `authService.login(email, password)`: posts to the login endpoint and
      resolves with the server's answer unchanged, storing its token if any. */
  function Login(store: TokenStore, reply: Result<AuthReply, HttpError>): (s: Settled<AuthReply>)
    ensures s.result == reply
    ensures reply.Ok? && Truthy(reply.value.accessToken) ==> s.store == reply.value.accessToken
    ensures reply.Ok? && !Truthy(reply.value.accessToken) ==> s.store == store
    ensures reply.Err? && reply.error.status == Some(401) ==> s.store.None?
    ensures reply.Err? && reply.error.status != Some(401) ==> s.store == store
  {
    Settled(StoreAfterAuth(store, reply), reply)
  }

  /** The body `authService.signup` posts. */
  datatype SignupRequest = SignupRequest(name: string, email: string, password: string, role: string)

  /** The sign-up request body; an omitted role defaults to "buyer". */
  function SignupBody(name: string, email: string, password: string, role: Option<string>): (b: SignupRequest)
    ensures b.name == name && b.email == email && b.password == password
    ensures role.None? ==> b.role == "buyer"
    ensures role.Some? ==> b.role == role.value
  {
    SignupRequest(name, email, password, if role.Some? then role.value else "buyer")
  }

  /** `authService.signup(name, email, password, role?)`: the body it posts,
      and, as for login, the answer passed through unchanged with its token
      stored if any. */
  function Signup(store: TokenStore, name: string, email: string, password: string, role: Option<string>,
                  reply: Result<AuthReply, HttpError>): (r: (SignupRequest, Settled<AuthReply>))
    ensures r.0.name == name && r.0.email == email && r.0.password == password
    ensures r.0.role == if role.Some? then role.value else "buyer"
    ensures r.1 == Login(store, reply)
  {
    (SignupBody(name, email, password, role), Settled(StoreAfterAuth(store, reply), reply))
  }

  /** `authService.logout()`: whatever the server answers, the failure is
      swallowed and the token is removed. */
  function Logout(store: TokenStore, reply: Result<(), HttpError>): (s: Settled<()>)
    ensures s.store.None?
    ensures s.result.Ok?
  {
    Settled(None, Ok(()))
  }

  /** The token store after a request to any other endpoint has settled. */
  function StoreAfterRequest<T>(store: TokenStore, reply: Result<T, HttpError>): (r: TokenStore)
    ensures reply.Ok? ==> r == store
    ensures reply.Err? ==> r == AfterRejection(store, reply.error)
  {
    if reply.Ok? then store else AfterRejection(store, reply.error)
  }

  /** After logging in with a token, every request carries it; after logging
      out, or after any 401, no request carries a token. */
  lemma TokenLifecycle(store: TokenStore, token: string, body: string,
                       reply: Result<(), HttpError>)
    requires token != ""
    ensures AuthorizationHeader(Login(store, Ok(AuthReply(Some(token), body))).store)
              == Some("Bearer " + token)
    ensures AuthorizationHeader(Logout(store, reply).store).None?
    ensures AuthorizationHeader(StoreAfterRequest(store, Result<(), HttpError>.Err(HttpError(Some(401))))).None?
  {
  }

  /** A rejection other than 401 never touches the token, and a login answer
      without a token keeps whatever token was stored before. */
  lemma TokenSurvivesOtherOutcomes(store: TokenStore, error: HttpError, body: string)
    requires error.status != Some(401)
    ensures Login(store, Err(error)).store == store
    ensures Login(store, Ok(AuthReply(None, body))).store == store
    ensures Login(store, Ok(AuthReply(Some(""), body))).store == store
  {
  }

  /** The `Authorization` header of `uploadMedia`, built from storage directly:
      with no token stored it reads "Bearer null". */
  function UploadAuthorization(store: TokenStore): (h: string)
    ensures store.Some? ==> h == "Bearer " + store.value
    ensures store.None? ==> h == "Bearer null"
  {
    "Bearer " + (if store.Some? then store.value else "null")
  }

  /** Unlike the interceptor, `uploadMedia` always sends a header, and with an
      empty or missing token it is not the interceptor's. */
  lemma UploadHeaderDiffersWithoutToken(store: TokenStore)
    ensures Truthy(store) ==> AuthorizationHeader(store) == Some(UploadAuthorization(store))
    ensures !Truthy(store) ==> AuthorizationHeader(store).None?
  {
  }

  // ---------------------------------------------------------------------------
  // Paths

  const ProjectsPrefix: string := "/api/projects/"

  /** `/api/projects/${id}`: read and update of one project. */
  function ProjectPath(id: string): (p: string)
    ensures ProjectsPrefix <= p && p[|ProjectsPrefix|..] == id
  {
    ProjectsPrefix + id
  }

  /** `/api/projects/${id}/submit`. */
  function SubmitPath(id: string): (p: string)
    ensures ProjectPath(id) <= p && p[|ProjectPath(id)|..] == "/submit"
  {
    ProjectPath(id) + "/submit"
  }

  /** `${API_BASE_URL}/api/projects/${id}/media`: the absolute upload URL. */
  function MediaUrl(base: string, id: string): (u: string)
    ensures base <= u && u[|base|..] == ProjectPath(id) + "/media"
  {
    base + ProjectPath(id) + "/media"
  }

  /** What `uploadMedia` sends and how it settles. */
  datatype Upload<+T> = Upload(url: string, authorization: string, settled: Settled<T>)

  /** `uploadMedia(id, files)`: posted through plain axios to the absolute
      media URL with the header built from storage, so neither interceptor
      sees it and whatever it settles with leaves the token alone. */
  function UploadMedia<T>(store: TokenStore, base: string, id: string, reply: Result<T, HttpError>): (u: Upload<T>)
    ensures u.url == MediaUrl(base, id)
    ensures u.authorization == UploadAuthorization(store)
    ensures u.settled.result == reply
    ensures u.settled.store == store
  {
    Upload(MediaUrl(base, id), UploadAuthorization(store), Settled(store, reply))
  }

  /** A 401 on an upload keeps the stored token, where the same 401 on any
      request through the shared instance removes it. */
  lemma UploadKeepsTokenOn401<T>(token: string, base: string, id: string)
    ensures UploadMedia<T>(Some(token), base, id, Err(HttpError(Some(401)))).settled.store == Some(token)
    ensures StoreAfterRequest<T>(Some(token), Err(HttpError(Some(401)))).None?
  {
  }

  /** Distinct projects are addressed by distinct paths. */
  lemma ProjectPathInjective(a: string, b: string)
    requires ProjectPath(a) == ProjectPath(b)
    ensures a == b
  {
    assert a == ProjectPath(a)[|ProjectsPrefix|..];
  }

  /** The submit and media addresses, like the project path, tell projects
      apart: distinct ids give distinct addresses on the same base URL. */
  lemma ProjectUrlsInjective(base: string, a: string, b: string)
    ensures SubmitPath(a) == SubmitPath(b) ==> a == b
    ensures MediaUrl(base, a) == MediaUrl(base, b) ==> a == b
  {
    if SubmitPath(a) == SubmitPath(b) {
      assert ProjectPath(a) == SubmitPath(a)[..|SubmitPath(a)| - 7];
      ProjectPathInjective(a, b);
    }
    if MediaUrl(base, a) == MediaUrl(base, b) {
      var u := MediaUrl(base, a);
      assert ProjectPath(a) == u[|base|..|u| - 6];
      ProjectPathInjective(a, b);
    }
  }

  const StatusPrefix: string := "/api/projects/status/"

  /** `getProjectsByStatus(status, owner?)`: the status lower-cased, and the
      owner appended unencoded as `?owner=` only when it is truthy. */
  function StatusPath(status: string, owner: Option<string>): (p: string)
    ensures Truthy(owner) ==> p == StatusPrefix + ToLower(status) + "?owner=" + owner.value
    ensures !Truthy(owner) ==> p == StatusPrefix + ToLower(status)
  {
    StatusPrefix + ToLower(status) + (if Truthy(owner) then "?owner=" + owner.value else "")
  }

  /** The status path does not depend on the case of the status. */
  lemma StatusPathIgnoresCase(status: string, owner: Option<string>)
    ensures StatusPath(ToLower(status), owner) == StatusPath(status, owner)
  {
    ToLowerIdempotent(status);
  }

  /** `getMarketplaceProjects(page = 1, limit = 10)`; an omitted argument takes
      its default. */
  function MarketplacePath(page: Option<int>, limit: Option<int>): string {
    var pg := if page.Some? then page.value else 1;
    var lim := if limit.Some? then limit.value else 10;
    "/api/marketplace?page=" + IntToString(pg) + "&limit=" + IntToString(lim)
  }

  /** With both arguments omitted the first page of ten is requested, and
      omitting an argument is the same as passing its default. */
  lemma MarketplaceDefaults(page: Option<int>, limit: Option<int>)
    ensures MarketplacePath(None, None) == "/api/marketplace?page=1&limit=10"
    ensures MarketplacePath(None, limit) == MarketplacePath(Some(1), limit)
    ensures MarketplacePath(page, None) == MarketplacePath(page, Some(10))
  {
    assert NatToString(1) == "1";
    assert NatToString(10) == NatToString(1) + ['0'];
  }

  // ---------------------------------------------------------------------------
  // Discover query

  /** The optional parameters of `getDiscoverItems`. */
  datatype DiscoverParams = DiscoverParams(
    limit: Option<int>,
    page: Option<int>,
    category: Option<string>,
    search: Option<string>)

  /** JavaScript truthiness of an optional integer-valued number. */
  predicate NumberTruthy(n: Option<int>) {
    n.Some? && n.value != 0
  }

  /** Replaces every maximal run of `\s` characters by one "-". */
  function CollapseSpaces(s: string): (r: string)
    ensures forall i :: 0 <= i < |r| ==> !IsSpace(r[i])
    ensures (forall i :: 0 <= i < |s| ==> !IsSpace(s[i])) ==> r == s
    ensures |s| > 0 && (forall i :: 0 <= i < |s| ==> IsSpace(s[i])) ==> r == "-"
    decreases |s|
  {
    if |s| == 0 then ""
    else if IsSpace(s[0]) then
      var t := TrimStart(s);
      "-" + CollapseSpaces(t)
    else [s[0]] + CollapseSpaces(s[1..])
  }

  /** `category.toLowerCase().replace(/\s+/g, '-')`. */
  function CategorySlug(category: string): (r: string)
    ensures forall i :: 0 <= i < |r| ==> !IsSpace(r[i]) && !('A' <= r[i] <= 'Z')
    ensures (forall i :: 0 <= i < |category| ==> !IsSpace(category[i])) ==> r == ToLower(category)
    ensures |category| > 0 && (forall i :: 0 <= i < |category| ==> IsSpace(category[i])) ==> r == "-"
  {
    var lower := ToLower(category);
    assert forall i :: 0 <= i < |lower| ==> IsSpace(lower[i]) == IsSpace(category[i]);
    LowerKeepsLower(lower);
    CollapseSpaces(lower)
  }

  /** Two strings that do not meet in the middle of a whitespace run: the
      first ends, or the second starts, with a character that is not
      whitespace (or one of them is empty). */
  predicate RunsApart(u: string, v: string) {
    |u| == 0 || |v| == 0 || !IsSpace(u[|u| - 1]) || !IsSpace(v[0])
  }

  /** Dropping the leading whitespace of a concatenation: it reaches into the
      second part only when the first part is all whitespace. */
  lemma {:induction false} TrimStartAppend(u: string, v: string)
    ensures TrimStart(u) != "" ==> TrimStart(u + v) == TrimStart(u) + v
    ensures TrimStart(u) == "" ==> TrimStart(u + v) == TrimStart(v)
    decreases |u|
  {
    if |u| > 0 {
      assert (u + v)[0] == u[0];
      assert (u + v)[1..] == u[1..] + v;
      if IsSpace(u[0]) {
        TrimStartAppend(u[1..], v);
      }
    } else {
      assert u + v == v;
    }
  }

  /** One step of collapsing a concatenation whose first part starts with a
      whitespace run that ends inside it. */
  lemma CollapseSpacesStepRun(u: string, v: string)
    requires |u| > 0 && IsSpace(u[0]) && TrimStart(u) != ""
    ensures CollapseSpaces(u) == "-" + CollapseSpaces(TrimStart(u))
    ensures CollapseSpaces(u + v) == "-" + CollapseSpaces(TrimStart(u) + v)
  {
    assert (u + v)[0] == u[0];
    TrimStartAppend(u, v);
  }

  /** Collapsing a whitespace run followed by a string that starts with a
      character that is not whitespace. */
  lemma CollapseSpacesStepBlank(u: string, v: string)
    requires |u| > 0 && IsSpace(u[0]) && TrimStart(u) == ""
    requires |v| > 0 && !IsSpace(v[0])
    ensures CollapseSpaces(u) == "-"
    ensures CollapseSpaces(u + v) == "-" + CollapseSpaces(v)
  {
    assert (u + v)[0] == u[0];
    TrimStartAppend(u, v);
    assert TrimStart(v) == v;
  }

  /** One step of collapsing a concatenation whose first part starts with a
      character that is not whitespace. */
  lemma CollapseSpacesStepChar(u: string, v: string)
    requires |u| > 0 && !IsSpace(u[0])
    ensures CollapseSpaces(u) == [u[0]] + CollapseSpaces(u[1..])
    ensures CollapseSpaces(u + v) == [u[0]] + CollapseSpaces(u[1..] + v)
  {
    assert (u + v)[0] == u[0];
    assert (u + v)[1..] == u[1..] + v;
  }

  /** Collapsing works run by run: where two strings do not split a
      whitespace run, the collapsed concatenation is the concatenation of
      the collapsed parts. */
  lemma {:induction false} CollapseSpacesAppend(u: string, v: string)
    requires RunsApart(u, v)
    ensures CollapseSpaces(u + v) == CollapseSpaces(u) + CollapseSpaces(v)
    decreases |u|
  {
    if |u| == 0 {
      assert u + v == v;
    } else if |v| == 0 {
      assert u + v == u;
    } else if IsSpace(u[0]) && TrimStart(u) != "" {
      var t := TrimStart(u);
      assert RunsApart(t, v) by {
        assert t[|t| - 1] == u[|u| - 1];
      }
      assert CollapseSpaces(u + v) == CollapseSpaces(u) + CollapseSpaces(v) by {
        CollapseSpacesStepRun(u, v);
        CollapseSpacesAppend(t, v);
        AppendAssoc("-", CollapseSpaces(t), CollapseSpaces(v));
      }
    } else if IsSpace(u[0]) {
      assert CollapseSpaces(u + v) == CollapseSpaces(u) + CollapseSpaces(v) by {
        assert IsSpace(u[|u| - 1]);
        CollapseSpacesStepBlank(u, v);
      }
    } else {
      assert RunsApart(u[1..], v) by {
        assert |u| > 1 ==> u[1..][|u| - 2] == u[|u| - 1];
      }
      assert CollapseSpaces(u + v) == CollapseSpaces(u) + CollapseSpaces(v) by {
        CollapseSpacesStepChar(u, v);
        CollapseSpacesAppend(u[1..], v);
        AppendAssoc([u[0]], CollapseSpaces(u[1..]), CollapseSpaces(v));
      }
    }
  }

  lemma AppendAssoc<T>(a: seq<T>, b: seq<T>, c: seq<T>)
    ensures a + (b + c) == (a + b) + c
  {
  }

  /** Lower-casing keeps whitespace where it was. */
  lemma ToLowerKeepsSpaces(s: string)
    ensures |ToLower(s)| == |s|
    ensures forall i :: 0 <= i < |s| ==> IsSpace(ToLower(s)[i]) == IsSpace(s[i])
  {
  }

  /** Lower-casing works character by character. */
  lemma ToLowerAppend(u: string, v: string)
    ensures ToLower(u + v) == ToLower(u) + ToLower(v)
  {
  }

  /** The slug of a category works run by run: where two pieces do not split
      a whitespace run, the slug of the whole is the slugs of the pieces put
      together. */
  lemma CategorySlugAppend(u: string, v: string)
    requires RunsApart(u, v)
    ensures CategorySlug(u + v) == CategorySlug(u) + CategorySlug(v)
  {
    ToLowerKeepsSpaces(u);
    ToLowerKeepsSpaces(v);
    ToLowerAppend(u, v);
    if |u| > 0 && |v| > 0 {
      assert ToLower(u)[|u| - 1] == LowerChar(u[|u| - 1]);
      assert ToLower(v)[0] == LowerChar(v[0]);
    }
    CollapseSpacesAppend(ToLower(u), ToLower(v));
  }

  /** Lower-casing leaves a string without upper-case letters as it is. */
  lemma ToLowerOfNoUpper(s: string)
    requires NoUpper(s)
    ensures ToLower(s) == s
  {
  }

  /** The lower-case form of a word whose first letter alone is upper-case. */
  lemma ToLowerCapitalised(c: char, rest: string)
    requires 'A' <= c <= 'Z' && NoUpper(rest)
    ensures ToLower([c] + rest) == [LowerChar(c)] + rest
  {
    ToLowerAppend([c], rest);
    ToLowerOfNoUpper(rest);
  }

  /** A word has no whitespace. */
  predicate IsWord(w: string) {
    |w| > 0 && forall i :: 0 <= i < |w| ==> !IsSpace(w[i])
  }

  /** Words separated by one whitespace run: the lower-cased words joined by "-". */
  lemma CategorySlugJoinsWords(a: string, gap: string, b: string)
    requires IsWord(a) && IsWord(b)
    requires |gap| > 0 && forall i :: 0 <= i < |gap| ==> IsSpace(gap[i])
    ensures CategorySlug(a + gap + b) == ToLower(a) + "-" + ToLower(b)
  {
    CategorySlugAppend(a, gap);
    CategorySlugAppend(a + gap, b);
  }

  /** Whitespace runs around a slugged piece become one "-" each. */
  lemma CategorySlugPadded(gap: string, m: string, gap2: string)
    requires |gap| > 0 && forall i :: 0 <= i < |gap| ==> IsSpace(gap[i])
    requires |gap2| > 0 && forall i :: 0 <= i < |gap2| ==> IsSpace(gap2[i])
    requires |m| > 0 && !IsSpace(m[0]) && !IsSpace(m[|m| - 1])
    ensures CategorySlug(gap + m + gap2) == "-" + CategorySlug(m) + "-"
  {
    CategorySlugAppend(gap, m);
    CategorySlugAppend(gap + m, gap2);
  }

  /** The pieces of the category "AI Tools". */
  lemma AiToolsPieces()
    ensures IsWord("AI") && IsWord("Tools") && IsSpace(' ')
    ensures ToLower("AI") == "ai" && ToLower("Tools") == "tools"
    ensures "AI" + " " + "Tools" == "AI Tools"
    ensures "ai" + "-" + "tools" == "ai-tools"
  {
    ToLowerCapitalised('T', "ools");
    assert ['T'] + "ools" == "Tools";
  }

  /** A category name of two words, as the discover query carries it. */
  lemma CategorySlugTwoWords(category: string)
    requires category == "AI Tools"
    ensures CategorySlug(category) == "ai-tools"
  {
    AiToolsPieces();
    CategorySlugJoinsWords("AI", " ", "Tools");
  }

  /** The words of the category " Social  Media ". */
  lemma SocialMediaWords()
    ensures IsWord("Social") && IsWord("Media")
    ensures ToLower("Social") == "social" && ToLower("Media") == "media"
  {
    ToLowerCapitalised('S', "ocial");
    ToLowerCapitalised('M', "edia");
    assert ['S'] + "ocial" == "Social";
    assert ['M'] + "edia" == "Media";
  }

  /** How " Social  Media " and its slug are put together from their pieces. */
  lemma SocialMediaLayout()
    ensures IsSpace(' ')
    ensures " " + ("Social" + "  " + "Media") + " " == " Social  Media "
    ensures "-" + ("social" + "-" + "media") + "-" == "-social-media-"
  {
  }

  /** Leading, inner and trailing whitespace runs each become one "-". */
  lemma CategorySlugPaddedWords(category: string)
    requires category == " Social  Media "
    ensures CategorySlug(category) == "-social-media-"
  {
    SocialMediaWords();
    SocialMediaLayout();
    var m := "Social" + "  " + "Media";
    CategorySlugJoinsWords("Social", "  ", "Media");
    assert m[0] == 'S' && m[|m| - 1] == 'a';
    CategorySlugPadded(" ", m, " ");
  }

  /** No upper-case ASCII letter occurs in `s`. */
  predicate NoUpper(s: string) {
    forall i :: 0 <= i < |s| ==> !('A' <= s[i] <= 'Z')
  }

  lemma NoUpperParts(a: string, b: string)
    ensures NoUpper(a + b) <==> NoUpper(a) && NoUpper(b)
  {
    if NoUpper(a) && NoUpper(b) {
      forall k | 0 <= k < |a + b|
        ensures !('A' <= (a + b)[k] <= 'Z')
      {
        if k < |a| {
          assert (a + b)[k] == a[k];
        } else {
          assert (a + b)[k] == b[k - |a|];
        }
      }
    }
    if NoUpper(a + b) {
      forall k | 0 <= k < |a|
        ensures !('A' <= a[k] <= 'Z')
      {
        assert (a + b)[k] == a[k];
      }
      forall k | 0 <= k < |b|
        ensures !('A' <= b[k] <= 'Z')
      {
        assert (a + b)[|a| + k] == b[k];
      }
    }
  }

  /** Collapsing whitespace keeps a string free of upper-case ASCII letters. */
  lemma {:induction false} LowerKeepsLower(s: string)
    requires NoUpper(s)
    ensures NoUpper(CollapseSpaces(s))
    decreases |s|
  {
    if |s| > 0 && IsSpace(s[0]) {
      var t := TrimStart(s);
      assert NoUpper(t) by {
        NoUpperParts(s[..|s| - |t|], t);
        assert s == s[..|s| - |t|] + t;
      }
      LowerKeepsLower(t);
      assert NoUpper(CollapseSpaces(s)) by {
        NoUpperParts("-", CollapseSpaces(t));
        assert CollapseSpaces(s) == "-" + CollapseSpaces(t);
      }
    } else if |s| > 0 {
      assert NoUpper(s[1..]) by {
        NoUpperParts([s[0]], s[1..]);
        assert s == [s[0]] + s[1..];
      }
      LowerKeepsLower(s[1..]);
      assert NoUpper(CollapseSpaces(s)) by {
        NoUpperParts([s[0]], CollapseSpaces(s[1..]));
        assert CollapseSpaces(s) == [s[0]] + CollapseSpaces(s[1..]);
      }
    }
  }

  /** A slug is its own slug: it is already lower-case and has no whitespace. */
  lemma CategorySlugIdempotent(category: string)
    ensures CategorySlug(CategorySlug(category)) == CategorySlug(category)
  {
    var r := CategorySlug(category);
    var lower := ToLower(r);
    assert lower == r;
  }

  /** The position of a query key in the order the builder appends them. */
  function KeyRank(name: string): int {
    if name == "limit" then 0
    else if name == "page" then 1
    else if name == "category" then 2
    else if name == "search" then 3
    else 4
  }

  /** The value of the first field named `name`, if any. */
  function Lookup(pairs: seq<(string, string)>, name: string): Option<string> {
    if |pairs| == 0 then None
    else if pairs[0].0 == name then Some(pairs[0].1)
    else Lookup(pairs[1..], name)
  }

  /** The fields the discover query builder appends, in order. */
  function DiscoverPairs(p: DiscoverParams): (r: seq<(string, string)>)
    ensures forall i, j :: 0 <= i < j < |r| ==> KeyRank(r[i].0) < KeyRank(r[j].0)
    ensures forall i :: 0 <= i < |r| ==> KeyRank(r[i].0) < 4
  {
    var limit := if NumberTruthy(p.limit) then [("limit", IntToString(p.limit.value))] else [];
    var page := if NumberTruthy(p.page) then [("page", IntToString(p.page.value))] else [];
    var category := if Truthy(p.category) && p.category.value != "All"
                    then [("category", CategorySlug(p.category.value))] else [];
    var search := if Truthy(p.search) then [("search", p.search.value)] else [];
    limit + page + category + search
  }

  /** Each field is present exactly when its parameter is truthy (and, for
      the category, not "All"), carrying the rendered number, the slug or the
      search text. */
  lemma DiscoverFields(p: DiscoverParams)
    ensures Lookup(DiscoverPairs(p), "limit").Some? <==> NumberTruthy(p.limit)
    ensures NumberTruthy(p.limit) ==>
              Lookup(DiscoverPairs(p), "limit") == Some(IntToString(p.limit.value))
    ensures Lookup(DiscoverPairs(p), "page").Some? <==> NumberTruthy(p.page)
    ensures NumberTruthy(p.page) ==>
              Lookup(DiscoverPairs(p), "page") == Some(IntToString(p.page.value))
    ensures Lookup(DiscoverPairs(p), "category").Some? <==>
              Truthy(p.category) && p.category.value != "All"
    ensures Truthy(p.category) && p.category.value != "All" ==>
              Lookup(DiscoverPairs(p), "category") == Some(CategorySlug(p.category.value))
    ensures Lookup(DiscoverPairs(p), "search").Some? <==> Truthy(p.search)
    ensures Truthy(p.search) ==> Lookup(DiscoverPairs(p), "search") == p.search
  {
    var a := if NumberTruthy(p.limit) then [("limit", IntToString(p.limit.value))] else [];
    var b := if NumberTruthy(p.page) then [("page", IntToString(p.page.value))] else [];
    var c := if Truthy(p.category) && p.category.value != "All"
             then [("category", CategorySlug(p.category.value))] else [];
    var d := if Truthy(p.search) then [("search", p.search.value)] else [];
    assert DiscoverPairs(p) == a + b + c + d;
    LookupFour(a, b, c, d, "limit");
    LookupFour(a, b, c, d, "page");
    LookupFour(a, b, c, d, "category");
    LookupFour(a, b, c, d, "search");
  }

  /** Looking a key up in four concatenated parts takes the first part that has it. */
  lemma LookupFour(a: seq<(string, string)>, b: seq<(string, string)>,
                   c: seq<(string, string)>, d: seq<(string, string)>, name: string)
    ensures Lookup(a + b + c + d, name) ==
              (if Lookup(a, name).Some? then Lookup(a, name)
               else if Lookup(b, name).Some? then Lookup(b, name)
               else if Lookup(c, name).Some? then Lookup(c, name)
               else Lookup(d, name))
  {
    LookupAppend(a + b + c, d, name);
    LookupAppend(a + b, c, name);
    LookupAppend(a, b, name);
  }

  /** Looking a key up in a concatenation searches the left part first. */
  lemma {:induction false} LookupAppend(x: seq<(string, string)>, y: seq<(string, string)>, name: string)
    ensures Lookup(x + y, name) == if Lookup(x, name).Some? then Lookup(x, name) else Lookup(y, name)
    decreases |x|
  {
    if |x| > 0 {
      assert (x + y)[1..] == x[1..] + y;
      LookupAppend(x[1..], y, name);
    } else {
      assert x + y == y;
    }
  }

  /** `/api/discover?` followed by the serialized fields. */
  function DiscoverPath(p: DiscoverParams): (path: string)
    ensures "/api/discover?" <= path
    ensures path[|"/api/discover?"|..] == SerializeQuery(DiscoverPairs(p))
  {
    "/api/discover?" + SerializeQuery(DiscoverPairs(p))
  }

  /** The query string of the discover path reads back as one field per
      appended parameter, in order; with no truthy parameter it is empty. */
  lemma DiscoverQueryReadsBack(p: DiscoverParams)
    ensures |DiscoverPairs(p)| == 0 ==> DiscoverPath(p) == "/api/discover?"
    ensures |DiscoverPairs(p)| > 0 ==>
              Split(DiscoverPath(p)[|"/api/discover?"|..], '&') == Fields(DiscoverPairs(p))
  {
    if |DiscoverPairs(p)| > 0 {
      SerializeQuerySplits(DiscoverPairs(p));
    }
  }

  // ---------------------------------------------------------------------------
  // Image URLs

  /** `getImageUrl(relativePath)` as written: the first "/api" anywhere in the
      base URL is removed, then the encoded path is appended. */
  function ImageUrlAsWritten(base: string, relativePath: string): (u: string)
    ensures IndexOf(base, "/api").None? ==>
              u == base + "/proxy-image?path=" + EncodeUriComponent(relativePath)
  {
    ReplaceFirst(base, "/api", "") + "/proxy-image?path=" + EncodeUriComponent(relativePath)
  }

  /** The first "/api" in a base URL whose host starts with "api." is the
      second slash of the scheme separator followed by the host's first letters. */
  lemma ApiHostIndex(host: string)
    ensures IndexOf("http://api." + host, "/api") == Some(6)
  {
    var base := "http://api." + host;
    assert base[6..10] == "/api";
    assert OccursAt(base, "/api", 6);
    forall k | 0 <= k < 6
      ensures !OccursAt(base, "/api", k)
    {
      assert base[k] != '/' || base[k + 1] != 'a';
    }
  }

  /** The first "/api" of the base URL is cut out wherever it occurs. */
  lemma ImageUrlAsWrittenCutsFirstApi(base: string, relativePath: string, i: nat)
    requires IndexOf(base, "/api") == Some(i)
    ensures ImageUrlAsWritten(base, relativePath)
              == base[..i] + base[i + 4..] + "/proxy-image?path=" + EncodeUriComponent(relativePath)
  {
    var r := ReplaceFirst(base, "/api", "");
    assert r == r[..i] + r[i..];
  }

  /** A base URL whose host starts with "api." loses the "/" before it: the
      image URL no longer names the host at all. */
  lemma ImageUrlAsWrittenBreaksApiHost(host: string, relativePath: string)
    ensures ImageUrlAsWritten("http://api." + host, relativePath)
              == "http:/." + host + "/proxy-image?path=" + EncodeUriComponent(relativePath)
  {
    var base := "http://api." + host;
    ApiHostIndex(host);
    ImageUrlAsWrittenCutsFirstApi(base, relativePath, 6);
    assert base[..6] + base[10..] == "http:/." + host;
  }

  /** The base URL with a trailing "/api" path segment removed. */
  function StripApiSuffix(base: string): (r: string)
    ensures r == base || r + "/api" == base
  {
    if |base| >= 4 && base[|base| - 4..] == "/api" then base[..|base| - 4] else base
  }

  /** `getImageUrl(relativePath)` with the "/api" suffix of the base removed
      and nothing else: the image proxy of the same origin. */
  function ImageUrl(base: string, relativePath: string): (u: string)
    ensures StripApiSuffix(base) <= u
    ensures u[|StripApiSuffix(base)|..] == "/proxy-image?path=" + EncodeUriComponent(relativePath)
  {
    StripApiSuffix(base) + "/proxy-image?path=" + EncodeUriComponent(relativePath)
  }

  /** A base URL that does not end in "/api" is kept whole, and one that does
      loses exactly those four characters; in particular an "api." host is kept. */
  lemma ImageUrlKeepsHost(base: string, relativePath: string)
    ensures !(|base| >= 4 && base[|base| - 4..] == "/api") ==>
              ImageUrl(base, relativePath) == base + "/proxy-image?path=" + EncodeUriComponent(relativePath)
    ensures ImageUrl(base + "/api", relativePath)
              == base + "/proxy-image?path=" + EncodeUriComponent(relativePath)
  {
    var b := base + "/api";
    assert b[|b| - 4..] == "/api";
    assert b[..|b| - 4] == base;
    assert StripApiSuffix(b) == base;
  }

  /** Where the code as written breaks a host starting with "api.", the
      corrected image URL keeps the base URL whole. */
  lemma ImageUrlKeepsApiHost(host: string, relativePath: string)
    requires !(|host| >= 4 && host[|host| - 4..] == "/api")
    ensures ImageUrl("http://api." + host, relativePath)
              == "http://api." + host + "/proxy-image?path=" + EncodeUriComponent(relativePath)
  {
    var b := "http://api." + host;
    if |host| >= 4 {
      assert b[|b| - 4..] == host[|host| - 4..];
    } else {
      assert b[|b| - 4] != '/';
    }
  }

  /** The path parameter of an image URL reads back as the relative path. */
  lemma ImageUrlPathReadsBack(base: string, relativePath: string)
    requires IsAscii(relativePath)
    ensures PercentDecode(ImageUrl(base, relativePath)[|StripApiSuffix(base) + "/proxy-image?path="|..])
              == relativePath
  {
    var u := ImageUrl(base, relativePath);
    assert u[|StripApiSuffix(base) + "/proxy-image?path="|..] == EncodeUriComponent(relativePath);
    EncodeUriComponentRoundTrip(relativePath);
  }
}
