/**
 Which redirect URIs are allowed: https, on claude.ai or anthropic.com or a host below them. The
 URL parser is a parameter that gives the scheme and the lower-cased host name.
 */
module RedirectUri {
  import opened Wrappers
  import opened Splitting

  datatype Url = Url(scheme: string, host: string)

  const EXACT: seq<string> := ["claude.ai", "anthropic.com"]
  const SUFFIXES: seq<string> := [".claude.ai", ".anthropic.com"]

  predicate HasSuffix(s: string, suffix: string) {
    |suffix| <= |s| && s[|s| - |suffix|..] == suffix
  }

  /** The test as it is made, on the text of the host. */
  predicate HostAllowed(host: string) {
    host in EXACT || exists suffix | suffix in SUFFIXES :: HasSuffix(host, suffix)
  }

  predicate IsAllowedRedirect(parse: string -> Option<Url>, uri: string) {
    var u := parse(uri);
    u.Some? && u.value.scheme == "https" && u.value.host != "" && HostAllowed(u.value.host)
  }

  /** The labels of a host name. */
  function Labels(host: string): seq<string> {
    Split(host, '.')
  }

  /** The last two labels of the host are these. */
  predicate Under(host: string, name: string, top: string) {
    var ls := Labels(host);
    |ls| >= 2 && ls[|ls| - 2] == name && ls[|ls| - 1] == top
  }

  lemma LabelsOfDomain(name: string, top: string)
    requires '.' !in name && '.' !in top
    ensures Labels(name + ['.'] + top) == [name, top]
  {
    SplitFirst(name, top, '.');
    SplitFirst(top, "", '.');
  }

  /** A host is the domain or ends with a dot and the domain exactly when its last two labels are the domain's. */
  lemma SuffixIsLabels(host: string, name: string, top: string)
    requires '.' !in name && '.' !in top
    ensures var domain := name + ['.'] + top;
            host == domain || HasSuffix(host, ['.'] + domain) <==> Under(host, name, top)
  {
    var domain := name + ['.'] + top;
    LabelsOfDomain(name, top);
    if HasSuffix(host, ['.'] + domain) {
      var front := host[..|host| - |domain| - 1];
      assert host == front + ['.'] + domain;
      SplitConcat(front, domain, '.');
    }
    if Under(host, name, top) {
      var ls := Labels(host);
      JoinOfSplit(host, '.');
      SplitFree(host, '.');
      assert ls == ls[..|ls| - 2] + [name, top];
      if |ls| == 2 {
        assert ls == Labels(domain);
        JoinOfSplit(domain, '.');
      } else {
        var front := ls[..|ls| - 2];
        assert Free(front, '.') by {
          assert forall p | p in front :: p in ls;
        }
        var text := Join(front, '.');
        SplitOfJoin(front, '.');
        SplitConcat(text, domain, '.');
        assert Labels(text + ['.'] + domain) == ls;
        JoinOfSplit(text + ['.'] + domain, '.');
        assert host == text + ['.'] + domain;
        assert host[|host| - |domain| - 1..] == ['.'] + domain;
      }
    }
  }

  lemma Dotted()
    ensures "claude" + ['.'] + "ai" == "claude.ai" && ['.'] + "claude.ai" == ".claude.ai"
    ensures "anthropic" + ['.'] + "com" == "anthropic.com" && ['.'] + "anthropic.com" == ".anthropic.com"
  {
  }

  lemma HostCases(host: string)
    ensures HostAllowed(host) <==>
            || host == "claude.ai" || HasSuffix(host, ".claude.ai")
            || host == "anthropic.com" || HasSuffix(host, ".anthropic.com")
  {
    hide HasSuffix;
    assert ".claude.ai" == SUFFIXES[0] && ".claude.ai" in SUFFIXES;
    assert ".anthropic.com" == SUFFIXES[1] && ".anthropic.com" in SUFFIXES;
    assert forall suffix | suffix in SUFFIXES :: suffix == ".claude.ai" || suffix == ".anthropic.com";
  }

  lemma HostAllowedIffLabels(host: string)
    ensures HostAllowed(host) <==> Under(host, "claude", "ai") || Under(host, "anthropic", "com")
  {
    hide HasSuffix, Under, HostAllowed;
    SuffixIsLabels(host, "claude", "ai");
    SuffixIsLabels(host, "anthropic", "com");
    Dotted();
    HostCases(host);
  }

  /**
   The tests decide on whole labels: an allowed URI parses, is https, and has a host whose last two
   labels are claude.ai or anthropic.com; and every such URI is allowed. A host that merely ends in the
   same letters is not, and neither is an empty one.
   */
  lemma AllowedIffLabels(parse: string -> Option<Url>, uri: string)
    ensures IsAllowedRedirect(parse, uri) <==>
              && parse(uri).Some? && parse(uri).value.scheme == "https"
              && (Under(parse(uri).value.host, "claude", "ai") || Under(parse(uri).value.host, "anthropic", "com"))
  {
    hide HostAllowed;
    if parse(uri).Some? {
      HostAllowedIffLabels(parse(uri).value.host);
    }
    assert Labels("") == [""];
  }
}
