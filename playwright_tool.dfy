/** The browser-automation tool of server/tools/playwright_tool.py: the URL
    safety gate with its fixed order of rules, the choice between XPath and
    CSS selectors, and the caps of the multi-element extract. The network
    location is taken as already split off the URL. */
module PlaywrightTool {
  import opened Wrappers
  import opened Strings

  /** The configuration read at import time; the fallback when no
      configuration module exists is `DefaultPolicy`. */
  datatype UrlPolicy = UrlPolicy(allowLocalhost: bool, blacklist: seq<string>, whitelist: seq<string>)

  const DefaultPolicy: UrlPolicy := UrlPolicy(true, [], [])

  const LocalhostMarkers: seq<string> := ["localhost", "127.0.0.1", "0.0.0.0", "[::1]"]

  datatype Verdict = Verdict(safe: bool, reason: string)

  /** The first entry whose lower-cased form occurs in `domain`. */
  function FirstContained(entries: seq<string>, domain: string): (r: Option<string>)
    ensures r.Some? ==> r.value in entries && Contains(domain, Lower(r.value))
    ensures r.None? <==> forall e :: e in entries ==> !Contains(domain, Lower(e))
  {
    if entries == [] then None
    else if Contains(domain, Lower(entries[0])) then Some(entries[0])
    else FirstContained(entries[1..], domain)
  }

  predicate IsLocal(domain: string) {
    exists m :: m in LocalhostMarkers && Contains(domain, m)
  }

  /** The specification of `is_safe_url`, rule by rule. */
  function SafetyVerdict(netloc: string, allowDomain: Option<string>, policy: UrlPolicy): Verdict {
    var domain := Lower(netloc);
    if domain == "" then Verdict(false, "Invalid URL: no domain")
    else if policy.allowLocalhost && IsLocal(domain) then Verdict(true, "Localhost allowed")
    else if FirstContained(policy.blacklist, domain).Some? then
      Verdict(false, "Domain blocked: " + FirstContained(policy.blacklist, domain).value)
    else if allowDomain.Some? && allowDomain.value != "" && Contains(domain, Lower(allowDomain.value)) then
      Verdict(true, "Temporarily allowed: " + allowDomain.value)
    else if policy.whitelist != [] then
      match FirstContained(policy.whitelist, domain)
      case Some(a) => Verdict(true, "Whitelisted: " + a)
      case None => Verdict(false, "Domain not in whitelist: " + domain)
    else Verdict(true, "No whitelist restrictions")
  }

  /** `is_safe_url` on the network location of the URL. */
  method IsSafeUrl(netloc: string, allowDomain: Option<string>, policy: UrlPolicy) returns (v: Verdict)
    ensures v == SafetyVerdict(netloc, allowDomain, policy)
  {
    var domain := Lower(netloc);
    if domain == "" {
      return Verdict(false, "Invalid URL: no domain");
    }
    if policy.allowLocalhost {
      var local := ScanLocal(domain);
      if local {
        return Verdict(true, "Localhost allowed");
      }
    }
    var blocked := ScanEntries(policy.blacklist, domain);
    if blocked.Some? {
      return Verdict(false, "Domain blocked: " + blocked.value);
    }
    if allowDomain.Some? && allowDomain.value != "" && Contains(domain, Lower(allowDomain.value)) {
      return Verdict(true, "Temporarily allowed: " + allowDomain.value);
    }
    if policy.whitelist != [] {
      var allowed := ScanEntries(policy.whitelist, domain);
      if allowed.Some? {
        return Verdict(true, "Whitelisted: " + allowed.value);
      }
      return Verdict(false, "Domain not in whitelist: " + domain);
    }
    v := Verdict(true, "No whitelist restrictions");
  }

  /** The loop over the localhost markers. */
  method ScanLocal(domain: string) returns (local: bool)
    ensures local == IsLocal(domain)
  {
    var k := 0;
    while k < |LocalhostMarkers|
      invariant 0 <= k <= |LocalhostMarkers|
      invariant forall j :: 0 <= j < k ==> !Contains(domain, LocalhostMarkers[j])
    {
      if Contains(domain, LocalhostMarkers[k]) {
        return true;
      }
      k := k + 1;
    }
    return false;
  }

  /** The loop over a blacklist or whitelist: the first entry whose
      lower-cased form occurs in the domain. */
  method ScanEntries(entries: seq<string>, domain: string) returns (r: Option<string>)
    ensures r == FirstContained(entries, domain)
  {
    var i := 0;
    while i < |entries|
      invariant 0 <= i <= |entries|
      invariant FirstContained(entries, domain) == FirstContained(entries[i..], domain)
    {
      assert entries[i..][1..] == entries[i + 1..];
      if Contains(domain, Lower(entries[i])) {
        return Some(entries[i]);
      }
      i := i + 1;
    }
    return None;
  }

  /** An empty location is always unsafe, whatever the configuration. */
  lemma EmptyLocationUnsafe(allowDomain: Option<string>, policy: UrlPolicy)
    ensures !SafetyVerdict("", allowDomain, policy).safe
  {
  }

  /** With localhost allowed, a local address is safe even when blacklisted. */
  lemma LocalhostBeforeBlacklist(netloc: string, allowDomain: Option<string>, policy: UrlPolicy, marker: string)
    requires policy.allowLocalhost && marker in LocalhostMarkers
    requires Contains(Lower(netloc), marker)
    ensures SafetyVerdict(netloc, allowDomain, policy) == Verdict(true, "Localhost allowed")
  {
  }

  /** A blacklisted domain is unsafe whatever the one-off allowance and the
      whitelist say, unless it is a permitted local address. */
  lemma BlacklistBeatsAllowances(netloc: string, allowDomain: Option<string>, policy: UrlPolicy, blocked: string)
    requires blocked in policy.blacklist && Contains(Lower(netloc), Lower(blocked))
    requires !(policy.allowLocalhost && IsLocal(Lower(netloc)))
    requires Lower(netloc) != ""
    ensures !SafetyVerdict(netloc, allowDomain, policy).safe
  {
  }

  /** A domain containing the one-off allowance is safe regardless of the
      whitelist, once the blacklist has passed it. */
  lemma AllowanceBeatsWhitelist(netloc: string, allowed: string, policy: UrlPolicy)
    requires allowed != "" && Contains(Lower(netloc), Lower(allowed))
    requires forall b :: b in policy.blacklist ==> !Contains(Lower(netloc), Lower(b))
    ensures SafetyVerdict(netloc, Some(allowed), policy).safe
  {
  }

  /** Once the earlier rules pass a domain, a non-empty whitelist admits it
      exactly when some entry occurs in it, and an empty whitelist admits
      everything. */
  lemma WhitelistDecides(netloc: string, policy: UrlPolicy)
    requires Lower(netloc) != ""
    requires !(policy.allowLocalhost && IsLocal(Lower(netloc)))
    requires forall b :: b in policy.blacklist ==> !Contains(Lower(netloc), Lower(b))
    ensures policy.whitelist != [] ==>
      (SafetyVerdict(netloc, None, policy).safe <==> exists a :: a in policy.whitelist && Contains(Lower(netloc), Lower(a)))
    ensures policy.whitelist == [] ==> SafetyVerdict(netloc, None, policy).safe
  {
  }

  /** Under the default configuration every non-empty location is safe. */
  lemma DefaultPolicyAdmitsAll(netloc: string)
    requires netloc != ""
    ensures SafetyVerdict(netloc, None, DefaultPolicy).safe
  {
  }

  /** `selector_type == "xpath" or selector.startswith("//") or selector.startswith("(")` */
  predicate IsXPath(selectorType: string, selector: string) {
    selectorType == "xpath" || StartsWith(selector, "//") || StartsWith(selector, "(")
  }

  /** The string handed to `page.locator`. */
  function LocatorFor(selectorType: string, selector: string): string {
    if IsXPath(selectorType, selector) then "xpath=" + selector else selector
  }

  /** A selector written as an XPath expression is used as one whatever type
      the caller named; otherwise the named type decides. */
  lemma XPathByShape(selectorType: string, selector: string)
    ensures StartsWith(selector, "//") ==> IsXPath(selectorType, selector)
    ensures StartsWith(selector, "(") ==> IsXPath(selectorType, selector)
    ensures !StartsWith(selector, "//") && !StartsWith(selector, "(") ==>
      (IsXPath(selectorType, selector) <==> selectorType == "xpath")
  {
  }

  /** At most this many matched elements are read. */
  const MaxRead: nat := 100
  /** At most this many values are listed. */
  const MaxListed: nat := 50
  /** Each listed value is cut to this many characters. */
  const MaxItem: nat := 200

  /** The values kept from the elements read: None (a missing attribute) and
      "" are dropped. */
  function KeptValues(values: seq<Option<string>>): (r: seq<string>)
    ensures |r| <= |values|
    ensures forall k :: 0 <= k < |r| ==> r[k] != ""
  {
    if values == [] then []
    else (if values[0].Some? && values[0].value != "" then [values[0].value] else []) + KeptValues(values[1..])
  }

  /** Every kept value is one of the values read, in order. */
  lemma {:induction false} KeptValuesAppend(a: seq<Option<string>>, b: seq<Option<string>>)
    ensures KeptValues(a + b) == KeptValues(a) + KeptValues(b)
  {
    if a == [] {
      assert a + b == b;
    } else {
      assert (a + b)[1..] == a[1..] + b;
      KeptValuesAppend(a[1..], b);
    }
  }

  /** The multi-element extract: `values[i]` is what element `i` yields.
      No match is an error; otherwise at most MaxRead elements are read and
      the non-empty values kept. */
  method ExtractMultiple(values: seq<Option<string>>) returns (r: Result<seq<string>, string>)
    ensures values == [] ==> r.Err?
    ensures values != [] ==> r == Ok(KeptValues(SliceTo(values, MaxRead)))
  {
    if |values| == 0 {
      return Err("No elements found");
    }
    var n := if |values| < MaxRead then |values| else MaxRead;
    var data: seq<string> := [];
    var i := 0;
    while i < n
      invariant 0 <= i <= n
      invariant data == KeptValues(values[..i])
    {
      KeptValuesAppend(values[..i], [values[i]]);
      assert values[..i + 1] == values[..i] + [values[i]];
      if values[i].Some? && values[i].value != "" {
        data := data + [values[i].value];
      }
      i := i + 1;
    }
    r := Ok(data);
  }

  /** A listed item: the first MaxItem characters, with "..." when cut. */
  function ListedItem(item: string): (r: string)
    ensures |r| <= MaxItem + 3
    ensures |item| <= MaxItem ==> r == item
    ensures |item| > MaxItem ==> r == item[..MaxItem] + "..."
  {
    if |item| > MaxItem then item[..MaxItem] + "..." else item
  }

  /** The listing of the extracted values: at most MaxListed items, and the
      number left unlisted. */
  function Listing(data: seq<string>): (r: (seq<string>, nat))
    ensures |r.0| == if |data| < MaxListed then |data| else MaxListed
    ensures |r.0| + r.1 == |data|
    ensures forall k :: 0 <= k < |r.0| ==> r.0[k] == ListedItem(data[k])
  {
    var shown := SliceTo(data, MaxListed);
    (seq(|shown|, k requires 0 <= k < |shown| => ListedItem(shown[k])), |data| - |shown|)
  }

  /** Extraction reads at most MaxRead elements, so at most MaxRead values
      reach the listing, and at most MaxListed of them are shown. */
  lemma ExtractBounds(values: seq<Option<string>>)
    ensures |KeptValues(SliceTo(values, MaxRead))| <= MaxRead
    ensures |Listing(KeptValues(SliceTo(values, MaxRead))).0| <= MaxListed
  {
  }
}
