/** The static configuration: the two eBay environments and the callback listener's constants. */
module Config {
  import opened Wrappers

  /** The endpoints of one eBay environment. */
  datatype Environment = Environment(consentUrl: string, tokenUrl: string, apiBase: string)

  const SandboxTokenUrl := "https://api.sandbox.ebay.com/identity/v1/oauth2/token"
  const ProductionTokenUrl := "https://api.ebay.com/identity/v1/oauth2/token"

  const EbaySandbox := Environment(
    "https://auth.sandbox.ebay.com/oauth2/authorize",
    SandboxTokenUrl,
    "https://api.sandbox.ebay.com")

  const EbayProduction := Environment(
    "https://auth.ebay.com/oauth2/authorize",
    ProductionTokenUrl,
    "https://api.ebay.com")

  /** The registry of environments, keyed by name. */
  const Environments: map<string, Environment> := map["sandbox" := EbaySandbox, "production" := EbayProduction]

  /** The closed range of local ports the callback listener may bind, as (first, last). */
  const CallbackPortRange: (int, int) := (8880, 8899)
  const DefaultCallbackPort := 8881
  const CallbackTimeoutSeconds := 300

  /** `ENVIRONMENTS.get(name)`: the registered environment, or None for any other name. */
  function Lookup(name: string): (r: Option<Environment>)
    ensures r.Some? <==> name == "sandbox" || name == "production"
    ensures name == "sandbox" ==> r == Some(EbaySandbox)
    ensures name == "production" ==> r == Some(EbayProduction)
  {
    if name in Environments then Some(Environments[name]) else None
  }

  /** The registry holds exactly the two names `sandbox` and `production`. */
  lemma RegistryKeys()
    ensures Environments.Keys == {"sandbox", "production"}
    ensures |Environments| == 2
  {
    assert "sandbox" != "production";
  }

  /** The callback port range is non-empty and holds the default port. */
  lemma PortRangeWellFormed()
    ensures CallbackPortRange.0 <= DefaultCallbackPort <= CallbackPortRange.1
  {
  }

  /** `t` occurs in `s` starting at index `i`. */
  predicate OccursAt(s: string, t: string, i: int) {
    0 <= i <= |s| - |t| && s[i..i + |t|] == t
  }

  /** Python's `t in s` for strings. */
  predicate Contains(s: string, t: string) {
    exists i | 0 <= i <= |s| :: OccursAt(s, t, i)
  }

  /** A string without one of `t`'s characters cannot contain `t`. */
  lemma MissingCharacter(s: string, t: string, k: nat)
    requires k < |t| && t[k] !in s
    ensures !Contains(s, t)
  {
    forall i | 0 <= i <= |s| ensures !OccursAt(s, t, i) {
      if i <= |s| - |t| {
        assert s[i..i + |t|][k] == s[i + k];
      }
    }
  }

  /**
   * The letters of the sandbox token endpoint at indices 12 to 18. They are
   * stated two at a time: every fact about a position in a long literal makes
   * the solver walk the literal, and small lemmas keep each such check cheap.
   */
  lemma SandboxTokenUrlSa()
    ensures SandboxTokenUrl[12] == 's' && SandboxTokenUrl[13] == 'a'
  {
  }

  lemma SandboxTokenUrlNd()
    ensures SandboxTokenUrl[14] == 'n' && SandboxTokenUrl[15] == 'd'
  {
  }

  lemma SandboxTokenUrlBo()
    ensures SandboxTokenUrl[16] == 'b' && SandboxTokenUrl[17] == 'o'
  {
  }

  lemma SandboxTokenUrlX()
    ensures SandboxTokenUrl[18] == 'x'
  {
  }

  /** The sandbox token endpoint mentions "sandbox", right after "https://api.". */
  lemma SandboxTokenUrlMarked()
    ensures Contains(SandboxTokenUrl, "sandbox")
  {
    SandboxTokenUrlSa();
    SandboxTokenUrlNd();
    SandboxTokenUrlBo();
    SandboxTokenUrlX();
    assert SandboxTokenUrl[12..19] == "sandbox";
    assert OccursAt(SandboxTokenUrl, "sandbox", 12);
  }

  lemma ProductionTokenUrlHalves()
    ensures ProductionTokenUrl == "https://api.ebay.com/" + "identity/v1/oauth2/token"
  {
  }

  lemma ProductionTokenUrlHasNoX()
    ensures 'x' !in ProductionTokenUrl
  {
    ProductionTokenUrlHalves();
    assert 'x' !in "https://api.ebay.com/";
    assert 'x' !in "identity/v1/oauth2/token";
  }

  /** The production token endpoint does not mention "sandbox": it has no letter `x`. */
  lemma ProductionTokenUrlUnmarked()
    ensures !Contains(ProductionTokenUrl, "sandbox")
  {
    ProductionTokenUrlHasNoX();
    MissingCharacter(ProductionTokenUrl, "sandbox", 6);
  }

  /** Of the two registered token endpoints, exactly the sandbox one mentions "sandbox". */
  lemma TokenUrlsDistinguishable()
    ensures Contains(EbaySandbox.tokenUrl, "sandbox")
    ensures !Contains(EbayProduction.tokenUrl, "sandbox")
  {
    SandboxTokenUrlMarked();
    ProductionTokenUrlUnmarked();
  }
}
