/**
 * Where the agentary keeps its state: the home directory chosen from an
 * explicit override, the `AGENTARY_HOME` variable or the user's home, and the
 * request context that carries it.  The environment variable's value (`""` when
 * unset) and the user's home directory (`None` when unknown) are parameters.
 */
module Home {
  import opened Wrappers
  import opened GoStrings
  import opened GoPath

  const DefaultHomeLeaf := ".agentary"

  /**
   * A request context: the agentary home when one is stored, and the other
   * values it carries, which storing the home leaves alone.
   */
  datatype Context = Context(home: Option<string>, others: map<string, string>)

  /** `HomeFrom`: the stored home and whether there is one. */
  function HomeFrom(ctx: Context): (r: (string, bool))
    ensures r.1 <==> ctx.home.Some?
    ensures r.1 ==> r.0 == ctx.home.value
    ensures !r.1 ==> r.0 == ""
  {
    match ctx.home
    case Some(h) => (h, true)
    case None => ("", false)
  }

  /** `WithHome`: a context that reads back the given home and keeps every other value. */
  function WithHome(ctx: Context, home: string): (r: Context)
    ensures HomeFrom(r) == (home, true)
    ensures r.others == ctx.others
  {
    ctx.(home := Some(home))
  }

  /** `MustHomeFrom`: the stored home, or the panic raised when it is absent or empty. */
  function MustHomeFrom(ctx: Context): (r: Result<string>)
    ensures r.Ok? <==> HomeFrom(ctx).1 && HomeFrom(ctx).0 != ""
    ensures r.Ok? ==> r.value == HomeFrom(ctx).0
  {
    var (h, ok) := HomeFrom(ctx);
    if ok && h != "" then Ok(h) else Err("agentary home missing from context")
  }

  /** Storing a home and reading it back never panics unless the home is empty. */
  lemma MustHomeFromWithHome(ctx: Context, home: string)
    ensures MustHomeFrom(WithHome(ctx, home)) == (if home == "" then Err("agentary home missing from context") else Ok(home))
  {
  }

  /** `ResolveHome`: the override, else `AGENTARY_HOME`, both cleaned; else `.agentary` in the user's home. */
  function ResolveHome(override: string, envHome: string, userHome: Option<string>): (r: Result<string>)
    ensures override != "" ==> r == Ok(Clean(override))
    ensures override == "" && envHome != "" ==> r == Ok(Clean(envHome))
    ensures override == "" && envHome == "" ==>
      (r.Err? <==> userHome.None?) && (r.Ok? ==> r.value == JoinPath([userHome.value, DefaultHomeLeaf]))
    ensures r.Ok? ==> r.value != ""
  {
    if override != "" then Ok(Clean(override))
    else if envHome != "" then Ok(Clean(envHome))
    else match userHome
      case None => Err("could not determine user home directory")
      case Some(u) =>
        assert [u, DefaultHomeLeaf][1] != "";
        Ok(JoinPath([u, DefaultHomeLeaf]))
  }

  /** An absolute override, environment value or user home resolves to a clean absolute path. */
  lemma ResolveHomeClean(override: string, envHome: string, userHome: Option<string>)
    requires override != "" ==> IsAbs(override)
    requires override == "" && envHome != "" ==> IsAbs(envHome)
    requires override == "" && envHome == "" && userHome.Some? ==> IsAbs(userHome.value)
    ensures ResolveHome(override, envHome, userHome).Ok? ==>
      var h := ResolveHome(override, envHome, userHome).value;
      IsAbs(h) && Clean(h) == h
  {
    if override != "" {
      CleanIdempotentAbs(override);
    } else if envHome != "" {
      CleanIdempotentAbs(envHome);
    } else if userHome.Some? {
      assert Segment(DefaultHomeLeaf);
      JoinPathSegmentClean(userHome.value, DefaultHomeLeaf);
    }
  }

  /** The default home is `.agentary` directly inside an absolute user home. */
  lemma DefaultHomeLayout(userHome: string)
    requires IsAbs(userHome)
    ensures ResolveHome("", "", Some(userHome)) == Ok((if Clean(userHome) == "/" then "/" else Clean(userHome) + "/") + DefaultHomeLeaf)
  {
    assert Segment(DefaultHomeLeaf);
    JoinPathSegment(userHome, DefaultHomeLeaf);
  }
}
