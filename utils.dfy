/** The small string rules of tcc/utils.py: the URL whitelist of `urlize`,
    its link-text trimming, and the default admin callback. */
module UrlUtils {
  import opened Outcomes
  import opened PySeq

  /** An entry of the whitelist as `is_acceptable` compares it: with
      `forcePrepend`, "http://" goes in front of an entry that starts with
      neither "http://" nor "https://". */
  function Prepended(acceptable: string, forcePrepend: bool): (e: string)
    ensures |acceptable| <= |e| && e[|e| - |acceptable|..] == acceptable
    ensures forcePrepend ==> "http://" <= e || "https://" <= e
    ensures !forcePrepend ==> e == acceptable
  {
    if forcePrepend && !("http://" <= acceptable || "https://" <= acceptable)
    then "http://" + acceptable
    else acceptable
  }

  /** Some entry of the whitelist, as compared, starts the url. */
  predicate Acceptable(url: string, acceptableUrls: seq<string>, forcePrepend: bool)
  {
    exists i :: 0 <= i < |acceptableUrls| && Prepended(acceptableUrls[i], forcePrepend) <= url
  }

  /** `is_acceptable`: the first entry that starts the url ends the search. */
  method IsAcceptable(url: string, acceptableUrls: seq<string>, forcePrepend: bool) returns (b: bool)
    ensures b == Acceptable(url, acceptableUrls, forcePrepend)
    ensures acceptableUrls == [] ==> !b
  {
    for k := 0 to |acceptableUrls|
      invariant forall i :: 0 <= i < k ==> !(Prepended(acceptableUrls[i], forcePrepend) <= url)
    {
      var acceptable := acceptableUrls[k];
      if forcePrepend && !("http://" <= acceptable || "https://" <= acceptable) {
        acceptable := "http://" + acceptable;
      }
      if acceptable <= url {
        return true;
      }
    }
    return false;
  }

  /** Without prepending, the entries are compared verbatim as prefixes. */
  lemma VerbatimWithoutPrepend(url: string, acceptableUrls: seq<string>)
    ensures Acceptable(url, acceptableUrls, false)
        <==> exists i :: 0 <= i < |acceptableUrls| && acceptableUrls[i] <= url
  {
    if exists i :: 0 <= i < |acceptableUrls| && acceptableUrls[i] <= url {
      var i :| 0 <= i < |acceptableUrls| && acceptableUrls[i] <= url;
      assert Prepended(acceptableUrls[i], false) == acceptableUrls[i];
    }
  }

  lemma PrefixOfPrefix(a: string, b: string, c: string)
    requires a <= b && b <= c
    ensures a <= c
  {
    assert c[..|a|] == b[..|a|];
  }

  /** With prepending, only http and https urls are accepted. */
  lemma PrependedAcceptsOnlyHttp(url: string, acceptableUrls: seq<string>)
    requires Acceptable(url, acceptableUrls, true)
    ensures "http://" <= url || "https://" <= url
  {
    var i :| 0 <= i < |acceptableUrls| && Prepended(acceptableUrls[i], true) <= url;
    var e := Prepended(acceptableUrls[i], true);
    if "http://" <= e {
      PrefixOfPrefix("http://", e, url);
    } else {
      PrefixOfPrefix("https://", e, url);
    }
  }

  /** An entry without a scheme accepts the http url it names. */
  lemma BareHostAcceptsHttp(url: string, acceptableUrls: seq<string>, i: int)
    requires 0 <= i < |acceptableUrls|
    requires !("http://" <= acceptableUrls[i] || "https://" <= acceptableUrls[i])
    requires "http://" + acceptableUrls[i] <= url
    ensures Acceptable(url, acceptableUrls, true)
  {
    assert Prepended(acceptableUrls[i], true) <= url;
  }

  /** The `trim_url` lambda of `urlize`: link text longer than the limit is
      cut to limit - 3 characters (none when the limit is below 3) and "..."
      is appended; without a limit or within it the text is kept. */
  function TrimUrl(x: string, limit: Option<int>): (r: string)
    ensures limit.None? || |x| <= limit.value ==> r == x
  {
    if limit.Some? && |x| > limit.value then Take(x, Max(0, limit.value - 3)) + "..."
    else x
  }

  /** A trimmed link text is a prefix of the text followed by "...", and is
      max(limit, 3) long: at most the limit once the limit is 3 or more. */
  lemma TrimmedLength(x: string, limit: int)
    requires |x| > limit
    ensures var r := TrimUrl(x, Some(limit));
      && |r| == Max(limit, 3)
      && r[..|r| - 3] <= x
      && r[|r| - 3..] == "..."
  {
    var n := Max(0, limit - 3);
    SliceFacts(x, 0, n);
    assert Take(x, n) == x[..n];
  }

  /** The object a comment is attached to, as far as `admin_callback` looks
      at it: a user (by id) or anything else. */
  datatype ContentObject = UserObject(userId: nat) | OtherObject

  /** `admin_callback`: the users allowed to do `action` on a comment, only
      ever the user on whose page the comment is, and only for removal. */
  function AdminCallback(action: string, contentObject: ContentObject): (users: seq<ContentObject>)
    ensures users != [] <==> action == "remove" && contentObject.UserObject?
    ensures users != [] ==> users == [contentObject]
  {
    if action == "remove" && contentObject.UserObject? then [contentObject] else []
  }
}
