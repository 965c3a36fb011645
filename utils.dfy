/**
 * Asset paths of src/lib/utils.ts: under a production build served from
 * GitHub Pages every path gets the repository prefix, otherwise none.
 */
module Utils {
  import opened Wrappers

  const GitHubPagesBase: string := "/vinaymaurya_portfolio"

  /**
   * The build and page the code runs in: `import.meta.env.PROD`, and
   * `window.location.href`, absent when there is no `window`.
   */
  datatype Environment = Environment(isProduction: bool, href: Option<string>)

  /** `sub` occurs in `s` starting at position `i`. */
  predicate OccursAt(s: string, sub: string, i: int) {
    0 <= i && i + |sub| <= |s| && s[i..i + |sub|] == sub
  }

  /** `s.includes(sub)`. */
  ghost predicate Includes(s: string, sub: string) {
    exists i :: OccursAt(s, sub, i)
  }

  /** `s.includes(sub)`, scanning from the left. */
  function IncludesFrom(s: string, sub: string, i: nat): (r: bool)
    requires i <= |s|
    ensures r <==> exists j :: i <= j && OccursAt(s, sub, j)
    decreases |s| - i
  {
    if i + |sub| > |s| then false
    else if s[i..i + |sub|] == sub then assert OccursAt(s, sub, i); true
    else
      var r := IncludesFrom(s, sub, i + 1);
      assert !OccursAt(s, sub, i);
      r
  }

  predicate OnGitHubPages(env: Environment) {
    env.href.Some? && IncludesFrom(env.href.value, "github.io", 0)
  }

  function GetBasePath(env: Environment): (r: string)
    ensures r == GitHubPagesBase <==> env.isProduction && env.href.Some? && Includes(env.href.value, "github.io")
    ensures r != GitHubPagesBase ==> r == ""
  {
    if env.isProduction && OnGitHubPages(env) then GitHubPagesBase else ""
  }

  /** `${getBasePath()}${path}`. */
  function GetImagePath(env: Environment, path: string): (r: string)
    ensures |r| >= |path| && r[|r| - |path|..] == path
    ensures r[..|r| - |path|] == GetBasePath(env)
    ensures !env.isProduction ==> r == path
  {
    GetBasePath(env) + path
  }
}
