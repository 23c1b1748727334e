/** The client's database credentials: environment values with demo fallbacks, and the test
    deciding whether they look like a real project's. */
module SupabaseConfig {
  import opened JsPrims

  const DemoUrl := "https://demo.supabase.co"
  const DemoKey := "demo-anon-key"

  /** `VITE_SUPABASE_URL || "https://demo.supabase.co"` and the same for the anon key. */
  function Credentials(urlEnv: Option<string>, keyEnv: Option<string>): (r: (string, string))
    ensures !Truthy(urlEnv) ==> r.0 == DemoUrl
    ensures !Truthy(keyEnv) ==> r.1 == DemoKey
    ensures Truthy(urlEnv) ==> r.0 == urlEnv.value
    ensures Truthy(keyEnv) ==> r.1 == keyEnv.value
  {
    (OrElse(urlEnv, DemoUrl), OrElse(keyEnv, DemoKey))
  }

  predicate HasValidCredentials(url: string, key: string) {
    url != DemoUrl && key != DemoKey && Includes(url, ".supabase.co")
  }

  /** The credentials are valid exactly when neither is its demo value and ".supabase.co"
      occurs somewhere in the URL. */
  lemma ValidIff(url: string, key: string)
    ensures HasValidCredentials(url, key) <==>
      url != DemoUrl && key != DemoKey && exists i :: OccursAt(url, ".supabase.co", i)
  {
    IncludesAt(url, ".supabase.co");
  }

  /** With the anon key unset the credentials are invalid whatever the URL, so in particular
      with both unset; a real-looking pair is valid. */
  lemma FallbacksInvalid(urlEnv: Option<string>, keyEnv: Option<string>)
    requires !Truthy(keyEnv)
    ensures var c := Credentials(urlEnv, keyEnv); !HasValidCredentials(c.0, c.1)
  {
  }

  lemma RealProjectValid()
    ensures HasValidCredentials("https://abc.supabase.co", "k")
  {
    assert OccursAt("https://abc.supabase.co", ".supabase.co", 11);
    IncludesAt("https://abc.supabase.co", ".supabase.co");
  }

  /** A URL that does not mention the hosted domain is never valid. */
  lemma ForeignUrlInvalid(url: string, key: string)
    requires forall i :: !OccursAt(url, ".supabase.co", i)
    ensures !HasValidCredentials(url, key)
  {
    IncludesAt(url, ".supabase.co");
  }
}
