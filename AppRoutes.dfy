/**
 * The application's route table and its guard (frontend/src/App.jsx):
 * which screen a path shows for the current user.
 */
module AppRoutes {
  import opened Wrappers
  import JsText
  import opened MockDatabase
  import AuthPage

  datatype Page =
    | HomePage | AuthScreen | PredictPage | ResultsPage | CandidateDetailPage(id: string)
    | AdminDashboardPage | ScientistDashboardPage

  /** What a route renders: a redirect, the guard's refusal, or a page. */
  datatype Screen = Navigate(to: string) | Unauthorized(message: string) | Render(page: Page)

  const UnauthorizedAccess := "Unauthorized access"

  /** `requiredRole && ...`: a role prop that is given and not empty. */
  predicate RoleRequired(requiredRole: Option<string>) {
    requiredRole.Some? && requiredRole.value != ""
  }

  /** `ProtectedRoute`: signed-out visitors go to the sign-in page; a required role must match exactly. */
  function ProtectedRoute(currentUser: Option<SessionUser>, requiredRole: Option<string>, children: Page): (s: Screen)
    ensures currentUser.None? ==> s == Navigate("/auth")
    ensures currentUser.Some? && RoleRequired(requiredRole) && currentUser.value.role != requiredRole.value ==>
      s == Unauthorized(UnauthorizedAccess)
    ensures currentUser.Some? && (!RoleRequired(requiredRole) || currentUser.value.role == requiredRole.value) ==>
      s == Render(children)
  {
    if currentUser.None? then Navigate("/auth")
    else if RoleRequired(requiredRole) && currentUser.value.role != requiredRole.value then Unauthorized(UnauthorizedAccess)
    else Render(children)
  }

  // ---------------------------------------------------------- path matching

  /** Nothing but '/' characters. */
  predicate AllSlashes(s: string) {
    forall i :: 0 <= i < |s| ==> s[i] == '/'
  }

  /** The path with its whole run of trailing '/' removed. */
  function StripTrailingSlashes(s: string): (r: string)
    ensures r <= s
    ensures AllSlashes(s[|r|..])
    ensures r == [] || r[|r| - 1] != '/'
    decreases |s|
  {
    if |s| > 0 && s[|s| - 1] == '/' then StripTrailingSlashes(s[..|s| - 1]) else s
  }

  /** A prefix followed only by '/' and not itself ending in '/' is what stripping leaves. */
  lemma StripUnique(s: string, r: string)
    requires r <= s && AllSlashes(s[|r|..]) && (r == [] || r[|r| - 1] != '/')
    ensures StripTrailingSlashes(s) == r
  {
  }

  /**
   * The router's test of a path against a pattern without parameters. The
   * pattern compiles to a regular expression anchored at both ends that allows
   * any run of '/' after the pattern, and carries the `i` flag (route paths are
   * not case-sensitive by default): an ASCII letter matches in either case.
   */
  predicate MatchesStatic(pattern: string, path: string) {
    |pattern| <= |path| && JsText.ToLower(path[..|pattern|]) == pattern && AllSlashes(path[|pattern|..])
  }

  /** The path in lower case without its trailing '/'. */
  function Normalised(path: string): string {
    JsText.ToLower(StripTrailingSlashes(path))
  }

  /** A pattern that does not end in '/' matches exactly the paths whose normal form it is. */
  lemma NormalisedMatches(pattern: string, path: string)
    requires pattern != [] && pattern[|pattern| - 1] != '/'
    ensures MatchesStatic(pattern, path) <==> Normalised(path) == pattern
  {
    var n := |pattern|;
    if MatchesStatic(pattern, path) {
      assert JsText.ToLower(path[..n])[n - 1] == JsText.LowerChar(path[n - 1]) == pattern[n - 1];
      StripUnique(path, path[..n]);
    }
    if Normalised(path) == pattern {
      assert path[..n] == StripTrailingSlashes(path);
    }
  }

  /** The pattern "/" matches exactly the non-empty paths made of '/' alone. */
  lemma HomeMatches(path: string)
    ensures MatchesStatic("/", path) <==> path != [] && StripTrailingSlashes(path) == []
  {
    if MatchesStatic("/", path) {
      assert JsText.ToLower(path[..1])[0] == JsText.LowerChar(path[0]) == '/';
      assert AllSlashes(path) by {
        forall i | 0 <= i < |path|
          ensures path[i] == '/'
        {
          if i > 0 {
            assert path[1..][i - 1] == path[i];
          }
        }
      }
      StripUnique(path, []);
    }
    if path != [] && StripTrailingSlashes(path) == [] {
      assert path[0] == path[0..][0] == '/';
      assert path[..1] == "/";
      assert path[1..] == path[0..][1..];
    }
  }

  /** The named patterns of the table, every one without a trailing '/'. */
  const NamedPaths: seq<string> := ["/auth", "/predict", "/results", "/admin", "/scientist"]

  /** Each named pattern matches exactly the paths that normalise to it. */
  lemma NamedPathMatches(p: string, path: string)
    requires p in NamedPaths
    ensures MatchesStatic(p, path) <==> Normalised(path) == p
  {
    NormalisedMatches(p, path);
  }

  const CandidatePrefix := "/candidate/"

  /**
   * `/candidate/:id`: the prefix, its letters in either case, then one
   * non-empty segment without '/' (the parameter), then any run of '/'.
   */
  predicate IsCandidatePath(path: string) {
    var n := Normalised(path);
    |n| > |CandidatePrefix| && n[..|CandidatePrefix|] == CandidatePrefix && '/' !in n[|CandidatePrefix|..]
  }

  /** `/` survives lower-casing, and nothing else becomes it. */
  lemma ToLowerKeepsSlashes(s: string)
    ensures '/' in JsText.ToLower(s) <==> '/' in s
  {
    if '/' in s {
      var i :| 0 <= i < |s| && s[i] == '/';
      assert JsText.ToLower(s)[i] == '/';
    }
  }

  /** The `:id` parameter of a candidate path, spelt as in the path: the segment between the prefix and the trailing '/'. */
  function CandidateId(path: string): (id: string)
    requires IsCandidatePath(path)
    ensures id != [] && '/' !in id
    ensures |CandidatePrefix| + |id| <= |path|
    ensures JsText.ToLower(path[..|CandidatePrefix|]) == CandidatePrefix
    ensures path[|CandidatePrefix|..|CandidatePrefix| + |id|] == id
    ensures AllSlashes(path[|CandidatePrefix| + |id|..])
  {
    var r := StripTrailingSlashes(path);
    JsText.ToLowerSlices(r, |CandidatePrefix|);
    ToLowerKeepsSlashes(r[|CandidatePrefix|..]);
    assert r[..|CandidatePrefix|] == path[..|CandidatePrefix|];
    assert path[|CandidatePrefix|..|r|] == r[|CandidatePrefix|..];
    r[|CandidatePrefix|..]
  }

  /** Every path of the candidate pattern's shape is a candidate path, and its id is the segment. */
  lemma CandidatePathOf(prefix: string, id: string, slashes: string)
    requires JsText.ToLower(prefix) == CandidatePrefix && id != [] && '/' !in id && AllSlashes(slashes)
    ensures IsCandidatePath(prefix + id + slashes)
    ensures CandidateId(prefix + id + slashes) == id
  {
    var path := prefix + id + slashes;
    assert path[|prefix + id|..] == slashes;
    assert (prefix + id)[|prefix + id| - 1] == id[|id| - 1];
    StripUnique(path, prefix + id);
    JsText.ToLowerSlices(prefix + id, |prefix|);
    assert (prefix + id)[..|prefix|] == prefix && (prefix + id)[|prefix|..] == id;
    ToLowerKeepsSlashes(id);
  }

  // ------------------------------------------------------------ route table

  /**
   * The role a path's guard demands, if its route has a guard: "admin" for
   * "/admin" and "scientist" for "/scientist", in any case and with any
   * trailing '/'.
   */
  function RequiredRole(path: string): (r: Option<string>)
    ensures r == Some("admin") <==> Normalised(path) == "/admin"
    ensures r == Some("scientist") <==> Normalised(path) == "/scientist"
    ensures r.None? <==> Normalised(path) != "/admin" && Normalised(path) != "/scientist"
  {
    NamedPathMatches("/admin", path);
    NamedPathMatches("/scientist", path);
    if MatchesStatic("/admin", path) then Some("admin")
    else if MatchesStatic("/scientist", path) then Some("scientist")
    else None
  }

  /**
   * The `<Routes>` table. The router picks the best-ranked route that matches;
   * no path matches two of these routes (RoutesDisjoint), so trying them in
   * order picks the same one. A path no route matches reaches the catch-all,
   * which sends it to "/".
   */
  function Route(path: string, currentUser: Option<SessionUser>): (s: Screen)
    ensures RequiredRole(path).None? ==> s != Navigate("/auth") && !s.Unauthorized?
    ensures s.Render? && s.page.CandidateDetailPage? ==> s.page.id != [] && '/' !in s.page.id
  {
    if MatchesStatic("/", path) then Render(HomePage)
    else if MatchesStatic("/auth", path) then Render(AuthScreen)
    else if MatchesStatic("/predict", path) then Render(PredictPage)
    else if MatchesStatic("/results", path) then Render(ResultsPage)
    else if IsCandidatePath(path) then Render(CandidateDetailPage(CandidateId(path)))
    else if MatchesStatic("/admin", path) then ProtectedRoute(currentUser, Some("admin"), AdminDashboardPage)
    else if MatchesStatic("/scientist", path) then ProtectedRoute(currentUser, Some("scientist"), ScientistDashboardPage)
    else Navigate("/")
  }

  /** No path matches two routes of the table. */
  lemma RoutesDisjoint(path: string)
    ensures MatchesStatic("/", path) ==> !IsCandidatePath(path) && forall p | p in NamedPaths :: !MatchesStatic(p, path)
    ensures IsCandidatePath(path) ==> forall p | p in NamedPaths :: !MatchesStatic(p, path)
    ensures forall p, q | p in NamedPaths && q in NamedPaths && MatchesStatic(p, path) && MatchesStatic(q, path) :: p == q
  {
    HomeMatches(path);
    forall p | p in NamedPaths
      ensures MatchesStatic(p, path) <==> Normalised(path) == p
    {
      NamedPathMatches(p, path);
    }
  }

  /** Only the paths of the two guarded routes depend on who is signed in. */
  lemma OnlyGuardedPathsDependOnUser(path: string, a: Option<SessionUser>, b: Option<SessionUser>)
    requires RequiredRole(path).None?
    ensures Route(path, a) == Route(path, b)
  {
  }

  /** A path of a guarded route sends a signed-out visitor to sign in. */
  lemma SignedOutGoesToAuth(path: string)
    requires RequiredRole(path).Some?
    ensures Route(path, None) == Navigate("/auth")
  {
    RoutesDisjoint(path);
  }

  /** The administrator dashboard renders exactly for a signed-in administrator, and refuses other users. */
  lemma AdminPageExactlyForAdmins(path: string, u: SessionUser)
    requires RequiredRole(path) == Some("admin")
    ensures Route(path, Some(u)) == Render(AdminDashboardPage) <==> u.role == "admin"
    ensures u.role != "admin" ==> Route(path, Some(u)) == Unauthorized(UnauthorizedAccess)
  {
    RoutesDisjoint(path);
  }

  /** The scientist dashboard renders exactly for a signed-in scientist, and refuses other users. */
  lemma ScientistPageExactlyForScientists(path: string, u: SessionUser)
    requires RequiredRole(path) == Some("scientist")
    ensures Route(path, Some(u)) == Render(ScientistDashboardPage) <==> u.role == "scientist"
    ensures u.role != "scientist" ==> Route(path, Some(u)) == Unauthorized(UnauthorizedAccess)
  {
    RoutesDisjoint(path);
  }

  /** A named pattern, written as it is, matches itself. */
  lemma NamedPathMatchesItself(p: string)
    requires p in NamedPaths
    ensures MatchesStatic(p, p)
  {
    JsText.ToLowerOfLower(p);
  }

  /** "/admin/" reaches the administrator's guard: trailing '/' is ignored. */
  lemma TrailingSlashReachesGuard()
    ensures RequiredRole("/admin/") == Some("admin")
  {
    var path := "/admin/";
    assert path[..6] == "/admin" && path[6..] == "/";
    JsText.ToLowerOfLower("/admin");
  }

  /** "/ADMIN" reaches the administrator's guard: letters match in either case. */
  lemma UpperCaseReachesGuard()
    ensures RequiredRole("/ADMIN") == Some("admin")
  {
    var path := "/ADMIN";
    assert path[..6] == path;
    assert JsText.ToLower(path) == "/admin";
  }

  /** "/candidate/abc/" shows the detail page for id "abc". */
  lemma CandidateTrailingSlash()
    ensures Route("/candidate/abc/", None) == Render(CandidateDetailPage("abc"))
  {
    JsText.ToLowerOfLower(CandidatePrefix);
    CandidatePathOf(CandidatePrefix, "abc", "/");
    assert CandidatePrefix + "abc" + "/" == "/candidate/abc/";
    RoutesDisjoint("/candidate/abc/");
  }

  /** The page a successful login navigates to always renders for the user who just signed in. */
  lemma LoginRedirectRenders(u: SessionUser)
    ensures Route(AuthPage.RedirectFor(u.role), Some(u)).Render?
  {
    var path := AuthPage.RedirectFor(u.role);
    NamedPathMatchesItself(path);
    RoutesDisjoint(path);
  }

  /** A path that no route of the table matches. */
  predicate Unmatched(path: string) {
    !MatchesStatic("/", path) && !IsCandidatePath(path) && forall p | p in NamedPaths :: !MatchesStatic(p, path)
  }

  /** The catch-all takes exactly the paths no route matches, and its target "/" renders the home page. */
  lemma CatchAllReachesHome(path: string, u: Option<SessionUser>)
    ensures Route(path, u) == Navigate("/") <==> Unmatched(path)
    ensures Route("/", u) == Render(HomePage)
  {
    assert MatchesStatic("/", "/") by {
      JsText.ToLowerOfLower("/");
    }
  }
}
