module IntegrationBinding {
  import opened Wrappers
  import opened Lists
  import opened Latest

  // The published integration tools and the product claims they must be bound to, one to one.

  datatype Claim = Claim(
    claimId: string, capabilityId: string, capabilityKey: string, capabilityVersion: int, claimKey: string,
    claimRecordVersion: int, displayName: string, approvedLanguage: string,
    evidenceReceiptIds: seq<string>, limitations: seq<string>)

  datatype Binding = Binding(
    claimId: string, capabilityId: string, capabilityKey: string, capabilityVersion: int, claimKey: string,
    claimRecordVersion: int, evidenceReceiptIds: seq<string>, limitations: seq<string>)

  datatype Tool = Tool(id: string, name: string, description: string, productTruth: Option<Binding>)

  // The fields of a tool that a claim vouches for.
  predicate Matches(tool: Tool, binding: Binding, claim: Claim) {
    && claim.capabilityKey == "integration.tool." + tool.id
    && binding.capabilityId == claim.capabilityId
    && binding.capabilityKey == claim.capabilityKey
    && binding.capabilityVersion == claim.capabilityVersion
    && binding.claimKey == claim.claimKey
    && binding.claimRecordVersion == claim.claimRecordVersion
    && tool.name == claim.displayName
    && tool.description == claim.approvedLanguage
    && binding.evidenceReceiptIds == claim.evidenceReceiptIds
    && binding.limitations == claim.limitations
  }

  // Every field of a claim but its id is vouched for: what matches a tool is determined by the tool.
  lemma MatchIsDetermined(tool: Tool, binding: Binding, claim: Claim, other: Claim)
    requires Matches(tool, binding, claim) && Matches(tool, binding, other) && claim.claimId == other.claimId
    ensures claim == other
  {}

  // And a claim determines what its tool is called, says and is bound to.
  lemma MatchDeterminesTool(tool: Tool, other: Tool, claim: Claim)
    requires tool.productTruth.Some? && other.productTruth.Some?
    requires Matches(tool, tool.productTruth.value, claim) && Matches(other, other.productTruth.value, claim)
    requires tool.productTruth.value.claimId == other.productTruth.value.claimId
    ensures claim.capabilityKey == "integration.tool." + tool.id
    ensures tool == other
  {
    var prefix := "integration.tool.";
    assert (prefix + tool.id)[|prefix|..] == tool.id && (prefix + other.id)[|prefix|..] == other.id;
  }

  // `new Map(claims.map(...))`: the last claim under an id wins.
  function ClaimsById(claims: seq<Claim>): map<string, Claim> {
    if claims == [] then map[]
    else ClaimsById(claims[..|claims| - 1])[claims[|claims| - 1].claimId := claims[|claims| - 1]]
  }

  predicate ToolOk(tool: Tool, byId: map<string, Claim>) {
    tool.productTruth.Some? && tool.productTruth.value.claimId in byId
    && Matches(tool, tool.productTruth.value, byId[tool.productTruth.value.claimId])
  }

  function ClaimIdOf(tool: Tool): string {
    match tool.productTruth
    case Some(binding) => binding.claimId
    case None => ""
  }

  ghost predicate DistinctClaims(tools: seq<Tool>, n: nat)
    requires n <= |tools|
  {
    forall i, j :: 0 <= i < j < n ==> ClaimIdOf(tools[i]) != ClaimIdOf(tools[j])
  }

  ghost predicate AllOk(tools: seq<Tool>, byId: map<string, Claim>, n: nat)
    requires n <= |tools|
  {
    forall i :: 0 <= i < n ==> ToolOk(tools[i], byId)
  }

  ghost predicate Synchronized(tools: seq<Tool>, claims: seq<Claim>) {
    |tools| == |claims| && AllOk(tools, ClaimsById(claims), |tools|) && DistinctClaims(tools, |tools|)
  }

  const NOT_SYNCHRONIZED := "The integration list is not synchronized with Product Truth."
  const MALFORMED := "The integration registry returned malformed items."

  method ValidatePublishedIntegrationTools(items: Option<seq<Tool>>, claims: seq<Claim>) returns (result: Result<seq<Tool>>)
    ensures items.None? ==> result == Failure(MALFORMED)
    ensures items.Some? ==>
      result == if Synchronized(items.value, claims) then Success(items.value) else Failure(NOT_SYNCHRONIZED)
  {
    if items.None? {
      return Failure(MALFORMED);
    }
    var byId := ClaimsById(claims);
    var tools := items.value;
    if |tools| != |claims| {
      return Failure(NOT_SYNCHRONIZED);
    }
    var seenClaims: set<string> := {};
    for i := 0 to |tools|
      invariant AllOk(tools, byId, i) && DistinctClaims(tools, i)
      invariant forall id :: id in seenClaims <==> exists k :: 0 <= k < i && ClaimIdOf(tools[k]) == id
    {
      var tool := tools[i];
      if tool.productTruth.None? {
        assert !ToolOk(tools[i], byId);
        return Failure(NOT_SYNCHRONIZED);
      }
      var binding := tool.productTruth.value;
      if binding.claimId !in byId {
        assert !ToolOk(tools[i], byId);
        return Failure(NOT_SYNCHRONIZED);
      }
      var claim := byId[binding.claimId];
      ClaimsByIdAreClaims(claims, binding.claimId);
      if claim.claimId in seenClaims || !Matches(tool, binding, claim) {
        assert !Matches(tool, binding, claim) ==> !ToolOk(tools[i], byId);
        return Failure(NOT_SYNCHRONIZED);
      }
      seenClaims := seenClaims + {claim.claimId};
    }
    result := Success(tools);
  }

  lemma {:induction false} ClaimsByIdAreClaims(claims: seq<Claim>, id: string)
    ensures id in ClaimsById(claims) <==> exists c :: c in claims && c.claimId == id
    ensures id in ClaimsById(claims) ==> ClaimsById(claims)[id] in claims && ClaimsById(claims)[id].claimId == id
  {
    if claims != [] {
      ClaimsByIdAreClaims(claims[..|claims| - 1], id);
      assert claims == claims[..|claims| - 1] + [claims[|claims| - 1]];
    }
  }

  // A pairing of tools with claims: tool i belongs to claim pairing[i].
  ghost predicate Injective(pairing: seq<nat>, n: nat) {
    && (forall i :: 0 <= i < |pairing| ==> pairing[i] < n)
    && Distinct(pairing)
  }

  ghost predicate Bijective(pairing: seq<nat>, n: nat) {
    |pairing| == n && Injective(pairing, n) && forall c: nat :: c < n ==> c in pairing
  }

  ghost predicate Fits(tool: Tool, claim: Claim) {
    tool.productTruth.Some? && tool.productTruth.value.claimId == claim.claimId && Matches(tool, tool.productTruth.value, claim)
  }

  ghost predicate Pairs(tools: seq<Tool>, claims: seq<Claim>, pairing: seq<nat>) {
    |tools| == |claims| && Bijective(pairing, |claims|)
    && forall i :: 0 <= i < |tools| ==> Fits(tools[i], claims[pairing[i]])
  }

  ghost predicate UniqueClaimIds(claims: seq<Claim>) {
    forall i, j :: 0 <= i < j < |claims| ==> claims[i].claimId != claims[j].claimId
  }

  ghost function Below(n: nat): (below: set<nat>)
    ensures |below| == n && forall i: nat :: i in below <==> i < n
  {
    if n == 0 then {} else Below(n - 1) + {n - 1}
  }

  lemma FullPart<T>(part: set<T>, whole: set<T>)
    requires part <= whole && |part| == |whole|
    ensures part == whole
  {
    assert whole == part + (whole - part);
  }

  /** Pigeonhole: n different numbers below n are all of them. */
  lemma InjectiveIsBijective(pairing: seq<nat>, n: nat)
    requires |pairing| == n && Injective(pairing, n)
    ensures Bijective(pairing, n)
  {
    DistinctSize(pairing);
    FullPart(Elements(pairing), Below(n));
    forall c: nat | c < n ensures c in pairing {
      assert c in Below(n);
    }
  }

  // The claims that the tools name, in the order of the tools.
  lemma {:induction false} NamedClaims(tools: seq<Tool>, claims: seq<Claim>, n: nat) returns (pairing: seq<nat>)
    requires n <= |tools| && AllOk(tools, ClaimsById(claims), n) && DistinctClaims(tools, n)
    ensures |pairing| == n && Injective(pairing, |claims|)
    ensures forall i :: 0 <= i < n ==> Fits(tools[i], claims[pairing[i]])
  {
    if n == 0 {
      pairing := [];
    } else {
      var init := NamedClaims(tools, claims, n - 1);
      var id := ClaimIdOf(tools[n - 1]);
      assert ToolOk(tools[n - 1], ClaimsById(claims));
      ClaimsByIdAreClaims(claims, id);
      var c: nat :| c < |claims| && claims[c] == ClaimsById(claims)[id];
      pairing := init + [c];
      forall i | 0 <= i < n - 1 ensures pairing[i] != c {
        assert Fits(tools[i], claims[init[i]]);
      }
    }
  }

  lemma PairedIdsAreUnique(tools: seq<Tool>, claims: seq<Claim>, pairing: seq<nat>)
    requires Pairs(tools, claims, pairing) && DistinctClaims(tools, |tools|)
    ensures UniqueClaimIds(claims)
  {
    forall c, d | 0 <= c < d < |claims| ensures claims[c].claimId != claims[d].claimId {
      assert c in pairing && d in pairing;
      var i :| 0 <= i < |pairing| && pairing[i] == c;
      var j :| 0 <= j < |pairing| && pairing[j] == d;
      assert Fits(tools[i], claims[c]) && Fits(tools[j], claims[d]);
      assert ClaimIdOf(tools[i]) != ClaimIdOf(tools[j]);
    }
  }

  lemma PairsAreSynchronized(tools: seq<Tool>, claims: seq<Claim>, pairing: seq<nat>)
    requires UniqueClaimIds(claims) && Pairs(tools, claims, pairing)
    ensures Synchronized(tools, claims)
  {
    forall i | 0 <= i < |tools| ensures ToolOk(tools[i], ClaimsById(claims)) {
      var claim := claims[pairing[i]];
      assert Fits(tools[i], claim);
      ClaimsByIdAreClaims(claims, claim.claimId);
      var c :| 0 <= c < |claims| && claims[c] == ClaimsById(claims)[claim.claimId];
      assert c == pairing[i];
    }
    forall i, j | 0 <= i < j < |tools| ensures ClaimIdOf(tools[i]) != ClaimIdOf(tools[j]) {
      assert Fits(tools[i], claims[pairing[i]]) && Fits(tools[j], claims[pairing[j]]);
    }
  }

  /** A list is accepted exactly when the claim ids are unique and tools and claims pair off one to one with matching fields. */
  lemma AcceptedExactly(tools: seq<Tool>, claims: seq<Claim>)
    ensures Synchronized(tools, claims) <==> UniqueClaimIds(claims) && exists pairing :: Pairs(tools, claims, pairing)
  {
    if Synchronized(tools, claims) {
      var pairing := NamedClaims(tools, claims, |tools|);
      InjectiveIsBijective(pairing, |claims|);
      assert Pairs(tools, claims, pairing);
      PairedIdsAreUnique(tools, claims, pairing);
    }
    if pairing :| UniqueClaimIds(claims) && Pairs(tools, claims, pairing) {
      PairsAreSynchronized(tools, claims, pairing);
    }
  }

  /** The accepted pairing is the only one. */
  lemma PairingIsUnique(tools: seq<Tool>, claims: seq<Claim>, pairing: seq<nat>, other: seq<nat>)
    requires UniqueClaimIds(claims) && Pairs(tools, claims, pairing) && Pairs(tools, claims, other)
    ensures pairing == other
  {
    forall i | 0 <= i < |tools| ensures pairing[i] == other[i] {
      assert Fits(tools[i], claims[pairing[i]]) && Fits(tools[i], claims[other[i]]);
    }
  }
}
