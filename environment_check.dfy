/** The start-up configuration check: one issue per unconfigured service key, in a fixed order,
    and the gate that renders the application only when there is none. The environment values
    are inputs (absent when unset). */
module EnvironmentCheck {
  import opened JsPrims

  datatype Issue = Issue(variable: string, description: string, howToFix: string, link: Option<string>)

  const ClerkVar := "VITE_CLERK_PUBLISHABLE_KEY"
  const UrlVar := "VITE_SUPABASE_URL"
  const KeyVar := "VITE_SUPABASE_ANON_KEY"

  const ClerkIssue := Issue(ClerkVar, "Clerk authentication is not configured",
                            "Get your publishable key from Clerk dashboard",
                            Some("https://dashboard.clerk.com/last-active?path=api-keys"))
  const UrlIssue := Issue(UrlVar, "Supabase database is not configured",
                          "Get your project URL from Supabase dashboard",
                          Some("https://supabase.com/dashboard/projects"))
  const KeyIssue := Issue(KeyVar, "Supabase API key is not configured",
                          "Get your anon key from Supabase project settings",
                          Some("https://supabase.com/dashboard/projects"))

  /** The Clerk key is unset, empty, or one of the three placeholders. */
  predicate ClerkUnconfigured(k: Option<string>) {
    !Truthy(k) || k.value == "pk_test_placeholder" || k.value == "pk_test_your_clerk_publishable_key" ||
    k.value == "pk_test_placeholder_key_for_development"
  }

  /** The Supabase URL is unset, empty, or one of the two placeholders. */
  predicate UrlUnconfigured(u: Option<string>) {
    !Truthy(u) || u.value == "https://placeholder.supabase.co" || u.value == "https://your-project-id.supabase.co"
  }

  /** The anon key is unset, empty, or one of the two placeholders. */
  predicate KeyUnconfigured(k: Option<string>) {
    !Truthy(k) || k.value == "placeholder-anon-key" || k.value == "your-supabase-anon-key"
  }

  /** The issues that should be reported, in the order Clerk key, Supabase URL, Supabase key. */
  function ExpectedIssues(clerkKey: Option<string>, supabaseUrl: Option<string>, supabaseKey: Option<string>): seq<Issue> {
    (if ClerkUnconfigured(clerkKey) then [ClerkIssue] else []) +
    (if UrlUnconfigured(supabaseUrl) then [UrlIssue] else []) +
    (if KeyUnconfigured(supabaseKey) then [KeyIssue] else [])
  }

  /** `checkEnvironment`, building the list by successive pushes. */
  method CheckEnvironment(clerkKey: Option<string>, supabaseUrl: Option<string>, supabaseKey: Option<string>)
    returns (issues: seq<Issue>)
    ensures issues == ExpectedIssues(clerkKey, supabaseUrl, supabaseKey)
  {
    issues := [];
    if ClerkUnconfigured(clerkKey) {
      issues := issues + [ClerkIssue];
    }
    if UrlUnconfigured(supabaseUrl) {
      issues := issues + [UrlIssue];
    }
    if KeyUnconfigured(supabaseKey) {
      issues := issues + [KeyIssue];
    }
  }

  function Rank(variable: string): nat {
    if variable == ClerkVar then 0 else if variable == UrlVar then 1 else 2
  }

  /** Each variable is reported exactly when its value is unconfigured, at most once, and the
      reported variables appear in the fixed order. */
  lemma IssuesCharacterized(clerkKey: Option<string>, supabaseUrl: Option<string>, supabaseKey: Option<string>)
    ensures var r := ExpectedIssues(clerkKey, supabaseUrl, supabaseKey);
      && |r| <= 3
      && ((exists i :: 0 <= i < |r| && r[i].variable == ClerkVar) <==> ClerkUnconfigured(clerkKey))
      && ((exists i :: 0 <= i < |r| && r[i].variable == UrlVar) <==> UrlUnconfigured(supabaseUrl))
      && ((exists i :: 0 <= i < |r| && r[i].variable == KeyVar) <==> KeyUnconfigured(supabaseKey))
      && (forall i, j :: 0 <= i < j < |r| ==> Rank(r[i].variable) < Rank(r[j].variable))
  {
    var r := ExpectedIssues(clerkKey, supabaseUrl, supabaseKey);
    if ClerkUnconfigured(clerkKey) {
      assert r[0].variable == ClerkVar;
    }
    if UrlUnconfigured(supabaseUrl) {
      var k := if ClerkUnconfigured(clerkKey) then 1 else 0;
      assert r[k].variable == UrlVar;
    }
    if KeyUnconfigured(supabaseKey) {
      assert r[|r| - 1].variable == KeyVar;
    }
  }

  /** `EnvironmentCheck` renders the application exactly when no issue is found. */
  predicate RendersChildren(issues: seq<Issue>) {
    |issues| == 0
  }

  /** The application renders exactly when all three values are configured. */
  lemma RenderGate(clerkKey: Option<string>, supabaseUrl: Option<string>, supabaseKey: Option<string>)
    ensures RendersChildren(ExpectedIssues(clerkKey, supabaseUrl, supabaseKey)) <==>
      !ClerkUnconfigured(clerkKey) && !UrlUnconfigured(supabaseUrl) &&
      !KeyUnconfigured(supabaseKey)
  {
  }
}
