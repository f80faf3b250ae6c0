/**
 * `getApiUrl` of client/src/lib/apiHelper.ts: the URL the client calls for an
 * API path. `prod` stands for the build flag `import.meta.env.PROD`.
 */
module ApiHelper {

  /** Where the serverless deployment mounts the API. */
  const NetlifyPrefix: string := "/.netlify/functions/api/"

  predicate StartsWithSlash(path: string) {
    |path| > 0 && path[0] == '/'
  }

  /** The path with one leading slash removed, if it has one. */
  function CleanPath(path: string): (clean: string)
    ensures StartsWithSlash(path) ==> "/" + clean == path
    ensures !StartsWithSlash(path) ==> clean == path
  {
    if StartsWithSlash(path) then path[1..] else path
  }

  function GetApiUrl(path: string, prod: bool): (url: string)
    ensures StartsWithSlash(url)
    ensures prod ==> url == NetlifyPrefix + CleanPath(path)
    ensures !prod ==> url == "/" + CleanPath(path)
  {
    if prod then NetlifyPrefix + CleanPath(path) else "/" + CleanPath(path)
  }

  /** Exactly one slash is removed: a second leading slash stays in the clean path. */
  lemma CleanPathRemovesOneSlash(p: string)
    ensures CleanPath("/" + p) == p
    ensures CleanPath("//x") == "/x"
  {
    assert ("/" + p)[1..] == p;
    assert "//x"[1..] == "/x";
  }

  /** A leading slash makes no difference to the URL of a path that has none. */
  lemma LeadingSlashIrrelevant(p: string, prod: bool)
    requires !StartsWithSlash(p)
    ensures GetApiUrl("/" + p, prod) == GetApiUrl(p, prod)
  {
    CleanPathRemovesOneSlash(p);
  }

  /** In development the rewrite is idempotent. */
  lemma DevelopmentIdempotent(path: string)
    ensures GetApiUrl(GetApiUrl(path, false), false) == GetApiUrl(path, false)
  {
    CleanPathRemovesOneSlash(CleanPath(path));
  }

  /** In production it is not: the prefix is added a second time. */
  lemma ProductionNotIdempotent()
    ensures GetApiUrl(GetApiUrl("x", true), true) != GetApiUrl("x", true)
  {
    var once := GetApiUrl("x", true);
    var twice := GetApiUrl(once, true);
    assert |twice| == |NetlifyPrefix| + |once| - 1;
  }
}
