/** The tokens of an identity read literally: what counts as holding a capability and as being
    trusted, in whatever case and padding they are written. */
module IdentityTokens {
  import opened Wrappers
  import opened Text
  import opened Identities

  function Folded(token: string): string {
    ToLower(TrimSpace(token))
  }

  /** One of the identity's capabilities is one of these. */
  predicate Holds(identity: AgentIdentity, tokens: set<string>) {
    exists i :: 0 <= i < |identity.capabilities| && Folded(identity.capabilities[i]) in tokens
  }

  predicate Trusted(identity: AgentIdentity) {
    Folded(identity.trustLevel) in {"system", "privileged", "high", "internal", "trusted", "medium"}
  }

  lemma TrustIff(identity: AgentIdentity)
    ensures TrustLevelRank(identity.trustLevel) >= 2 <==> Trusted(identity)
    ensures TrustLevelRank(identity.trustLevel) >= 1
  {
    hide TrimSpace, ToLower;
  }
}
