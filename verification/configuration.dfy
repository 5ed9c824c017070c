/** The `cloudant` configuration node (cloudant-cf/nodes/configuration.js):
    it keeps the configured host, trims it to the parsed host name, pulls
    the Cloudant account out of it with the pattern
    `/([a-z][a-z0-9]*)\.cloudant\.com/i`, and copies the stored
    credentials onto itself. */
module Configuration {
  import opened Text
  import opened Values

  /** The literal tail of the account pattern, `\.cloudant\.com`. */
  const CloudantSuffix: string := ".cloudant.com"

  predicate IsLetter(c: char) { IsLowerAscii(c) || IsUpperAscii(c) }

  predicate IsAlnum(c: char) { IsLetter(c) || IsDigit(c) }

  /** The account pattern matches `s[i..j + 13]` with group 1 = `s[i..j]`:
      a letter, then letters or digits, then `.cloudant.com`, all compared
      ignoring ASCII case (the `i` flag). */
  predicate MatchesAt(s: string, i: int, j: int) {
    && 0 <= i < j
    && j + |CloudantSuffix| <= |s|
    && IsLetter(s[i])
    && (forall k :: i < k < j ==> IsAlnum(s[k]))
    && EqualsIgnoreCase(s[j..j + |CloudantSuffix|], CloudantSuffix)
  }

  /** End of the run of letters and digits starting at `i`. */
  function RunEnd(s: string, i: nat): (j: nat)
    requires i <= |s|
    ensures i <= j <= |s|
    ensures forall k :: i <= k < j ==> IsAlnum(s[k])
    ensures j == |s| || !IsAlnum(s[j])
    decreases |s| - i
  {
    if i < |s| && IsAlnum(s[i]) then RunEnd(s, i + 1) else i
  }

  lemma SuffixStartsWithDot(t: string)
    requires EqualsIgnoreCase(t, CloudantSuffix)
    ensures |t| > 0 && t[0] == '.'
  {
    assert LowerChar(t[0]) == LowerChar(CloudantSuffix[0]);
  }

  lemma NotSuffixWithoutDot(t: string)
    requires |t| > 0 && t[0] != '.'
    ensures !EqualsIgnoreCase(t, CloudantSuffix)
  {
    assert LowerChar(t[0]) != LowerChar(CloudantSuffix[0]);
  }

  /** The run ends at the first position that is not a letter or digit. */
  lemma RunEndIsFirstNonAlnum(s: string, i: nat, j: nat)
    requires i <= j <= |s|
    requires forall k :: i <= k < j ==> IsAlnum(s[k])
    requires j == |s| || !IsAlnum(s[j])
    ensures RunEnd(s, i) == j
    decreases j - i
  {
    if i < j {
      RunEndIsFirstNonAlnum(s, i + 1, j);
    }
  }

  /** At a given start the capture is forced: the greedy `[a-z0-9]*`
      cannot stop early, since `.cloudant.com` starts with a dot, which is
      neither a letter nor a digit. */
  lemma CaptureIsForced(s: string, i: nat, j: int)
    requires i < |s|
    requires MatchesAt(s, i, j)
    ensures j == RunEnd(s, i + 1)
  {
    SuffixStartsWithDot(s[j..j + |CloudantSuffix|]);
    RunEndIsFirstNonAlnum(s, i + 1, j);
  }

  /** Leftmost start at or after `from` where the pattern matches. */
  function FindMatch(s: string, from: nat): (r: Option<(nat, nat)>)
    requires from <= |s|
    ensures r.Some? ==> from <= r.value.0 && MatchesAt(s, r.value.0, r.value.1)
    ensures r.Some? ==> forall i, j :: from <= i < r.value.0 ==> !MatchesAt(s, i, j)
    ensures r.None? ==> forall i, j :: from <= i ==> !MatchesAt(s, i, j)
    decreases |s| - from
  {
    if from == |s| then
      None
    else
      var j := RunEnd(s, from + 1);
      if IsLetter(s[from]) && j + |CloudantSuffix| <= |s|
         && EqualsIgnoreCase(s[j..j + |CloudantSuffix|], CloudantSuffix)
      then
        Some((from, j))
      else
        var rest := FindMatch(s, from + 1);
        assert forall j' :: !MatchesAt(s, from, j') by {
          forall j' | MatchesAt(s, from, j') ensures false {
            CaptureIsForced(s, from, j');
          }
        }
        rest
  }

  /** `host.match(CLOUDANT_ACCOUNT)[1]`, or None when there is no match.
      The match is the leftmost one and the capture keeps its case. */
  function MatchAccount(s: string): (r: Option<string>)
    ensures r.None? <==> forall i, j :: !MatchesAt(s, i, j)
    ensures r.Some? ==> exists i, j :: MatchesAt(s, i, j) && r.value == s[i..j]
                         && forall i', j' :: i' < i ==> !MatchesAt(s, i', j')
  {
    match FindMatch(s, 0)
    case None => None
    case Some((i, j)) =>
      assert forall i', j' :: i' < i ==> !MatchesAt(s, i', j');
      Some(s[i..j])
  }

  /** The state of a configuration node after its constructor ran.
      `url` absent means the property was deleted; `account`, `username`
      and `password` absent mean they were never set. */
  datatype ConfigNode = ConfigNode(
    name: Value,
    host: string,
    url: Option<string>,
    account: Option<string>,
    username: Option<Value>,
    password: Option<Value>)

  /** The host part the URL parser reports (`url.parse(h).host`), or None
      when it reports none. */
  type HostParser = string -> Option<string>

  /** `host` becomes the parsed host only when the parser yields a
      non-empty one. */
  function ParsedHost(configHost: string, parseHost: HostParser): (h: string)
    ensures parseHost(configHost).Some? && parseHost(configHost).value != "" ==> h == parseHost(configHost).value
    ensures parseHost(configHost).None? || parseHost(configHost).value == "" ==> h == configHost
  {
    match parseHost(configHost)
    case Some(p) => if p != "" then p else configHost
    case None => configHost
  }

  /** An own property of the stored credentials, if there is one. */
  function OwnCredential(credentials: Option<Props>, key: string): (r: Option<Value>)
    ensures r.Some? <==> credentials.Some? && HasKey(credentials.value, key)
    ensures r.Some? ==> r.value == Field(credentials.value, key)
  {
    match credentials
    case None => None
    case Some(ps) => if HasKey(ps, key) then Some(Field(ps, key)) else None
  }

  /** The configuration node constructor. */
  function NewConfigNode(name: Value, configHost: string, parseHost: HostParser,
                         credentials: Option<Props>): (n: ConfigNode)
    ensures n.host == ParsedHost(configHost, parseHost)
    ensures n.account == MatchAccount(n.host)
    ensures n.account.Some? <==> n.url.None?
    ensures n.url.Some? ==> n.url.value == configHost
    ensures n.username == OwnCredential(credentials, "username")
    ensures n.password == OwnCredential(credentials, "pass")
  {
    var host := ParsedHost(configHost, parseHost);
    var account := MatchAccount(host);
    ConfigNode(
      name,
      host,
      if account.Some? then None else Some(configHost),
      account,
      OwnCredential(credentials, "username"),
      OwnCredential(credentials, "pass"))
  }

  /** The leftmost match decides the account: a match at `i` with no
      match before it gives the capture at `i`. */
  lemma LeftmostMatchIsAccount(s: string, i: nat, j: nat)
    requires MatchesAt(s, i, j)
    requires forall i', j' :: i' < i ==> !MatchesAt(s, i', j')
    ensures MatchAccount(s) == Some(s[i..j])
  {
    var r := FindMatch(s, 0);
    assert r.Some?;
    var (i0, j0) := r.value;
    assert i0 == i;
    CaptureIsForced(s, i, j);
    CaptureIsForced(s, i, j0);
  }

  /** A host made of a prefix, an account name, the suffix in any case and
      a tail matches at the account name. */
  lemma MatchAfterPrefix(pre: string, acct: string, suffix: string, post: string)
    requires |acct| > 0 && IsLetter(acct[0])
    requires forall k :: 0 <= k < |acct| ==> IsAlnum(acct[k])
    requires EqualsIgnoreCase(suffix, CloudantSuffix)
    ensures MatchesAt(pre + acct + suffix + post, |pre|, |pre| + |acct|)
    ensures (pre + acct + suffix + post)[|pre|..|pre| + |acct|] == acct
  {
    var s := pre + acct + suffix + post;
    var j := |pre| + |acct|;
    assert s[j..j + |CloudantSuffix|] == suffix;
    assert forall k :: |pre| < k < j ==> s[k] == acct[k - |pre|];
    assert s[|pre|..j] == acct;
  }

  /** No match starts inside a prefix that holds no dot and does not end
      in a letter or digit: the capture would have to run up to a dot. */
  lemma NoMatchInPrefix(pre: string, rest: string, i: int, j: int)
    requires '.' !in pre
    requires |pre| == 0 || !IsAlnum(pre[|pre| - 1])
    requires i < |pre|
    ensures !MatchesAt(pre + rest, i, j)
  {
    var s := pre + rest;
    if 0 <= j < |pre| && j + |CloudantSuffix| <= |s| {
      assert s[j..j + |CloudantSuffix|][0] == pre[j];
      NotSuffixWithoutDot(s[j..j + |CloudantSuffix|]);
    }
    if 0 <= i && |pre| <= j {
      assert s[|pre| - 1] == pre[|pre| - 1];
    }
  }

  /** The account found after such a prefix is the name between the prefix
      and the suffix, with its case kept. */
  lemma {:induction false} AccountAfterPrefix(pre: string, acct: string, suffix: string, post: string)
    requires '.' !in pre
    requires |pre| == 0 || !IsAlnum(pre[|pre| - 1])
    requires |acct| > 0 && IsLetter(acct[0])
    requires forall k :: 0 <= k < |acct| ==> IsAlnum(acct[k])
    requires EqualsIgnoreCase(suffix, CloudantSuffix)
    ensures MatchAccount(pre + acct + suffix + post) == Some(acct)
  {
    var s := pre + acct + suffix + post;
    assert s == pre + (acct + suffix + post);
    MatchAfterPrefix(pre, acct, suffix, post);
    forall i', j' | i' < |pre| ensures !MatchesAt(s, i', j') {
      NoMatchInPrefix(pre, acct + suffix + post, i', j');
    }
    LeftmostMatchIsAccount(s, |pre|, |pre| + |acct|);
  }

  /** A hyphen before the account cuts the capture at the hyphen. */
  lemma HyphenatedHostExample()
    ensures MatchAccount("my-acct.cloudant.com") == Some("acct")
  {
    assert "my-acct.cloudant.com" == "my-" + "acct" + CloudantSuffix + "";
    assert EqualsIgnoreCase(CloudantSuffix, CloudantSuffix);
    AccountAfterPrefix("my-", "acct", CloudantSuffix, "");
  }

  /** The pattern is not anchored: a Cloudant name in the middle of the
      host is found. */
  lemma UnanchoredExample()
    ensures MatchAccount("x.cloudant.com.example.org") == Some("x")
  {
    assert "x.cloudant.com.example.org" == "" + "x" + CloudantSuffix + ".example.org";
    assert EqualsIgnoreCase(CloudantSuffix, CloudantSuffix);
    AccountAfterPrefix("", "x", CloudantSuffix, ".example.org");
  }

  /** Case is ignored when matching and kept in the capture. */
  lemma CaseKeptExample()
    ensures MatchAccount("ACCT.Cloudant.COM") == Some("ACCT")
  {
    assert "ACCT.Cloudant.COM" == "" + "ACCT" + ".Cloudant.COM" + "";
    assert EqualsIgnoreCase(".Cloudant.COM", CloudantSuffix);
    AccountAfterPrefix("", "ACCT", ".Cloudant.COM", "");
  }
}
