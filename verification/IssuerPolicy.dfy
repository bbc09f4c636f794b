/**
 The distribution check of services/xrpl-issuer-policy.service.ts, with its own copy of
 the decimal comparison.
 */
module IssuerPolicy {
  import opened Prelude
  import opened Decimals

  datatype PolicyError =
    | MalformedAmount
    | DistributionsNotAllowed
    | DistributionsDisabled
    | LimitExceeded
    | TrustlineNotAuthorized
    | HolderNotApproved

  datatype HolderStatus = Pending | Approved | Authorized | Rejected | Revoked

  datatype Policy = Policy(
    allowDistributions: bool,
    requiresAuthorizedTrustlines: bool,
    distributionsEnabled: bool,
    requireHolderApproval: bool,
    maxDistributionValue: Option<string>,
    holder: Option<HolderStatus>)

  function NormalizeDecimalString(value: string): Result<string, PolicyError>
  {
    var trimmed := Trim(value);
    if !IsDecimal(trimmed) then Err(MalformedAmount)
    else
      var whole := StripLeadingZeros(WholePart(trimmed));
      var fraction := StripTrailingZeros(FractionPart(trimmed));
      Ok(if fraction != "" then whole + "." + fraction else whole)
  }

  /** This copy splits the normalised strings itself and takes the longer of the two fractions as scale. */
  function CompareDecimalStrings(left: string, right: string): Result<int, PolicyError>
  {
    match (NormalizeDecimalString(left), NormalizeDecimalString(right))
    case (Err(e), _) => Err(e)
    case (Ok(_), Err(e)) => Err(e)
    case (Ok(l), Ok(r)) =>
      var leftWhole, leftFraction := WholePart(l), FractionPart(l);
      var rightWhole, rightFraction := WholePart(r), FractionPart(r);
      if |leftWhole| != |rightWhole| then Ok(if |leftWhole| > |rightWhole| then 1 else -1)
      else if leftWhole != rightWhole then Ok(if TextGreater(leftWhole, rightWhole) then 1 else -1)
      else
        var scale := Max(|leftFraction|, |rightFraction|);
        var leftScaled, rightScaled := PadEnd(leftFraction, scale), PadEnd(rightFraction, scale);
        if leftScaled == rightScaled then Ok(0)
        else Ok(if TextGreater(leftScaled, rightScaled) then 1 else -1)
  }

  /** Both copies accept the same strings and give the same answer, which is the exact sign of the difference. */
  lemma CopiesAgree(left: string, right: string)
    ensures CompareDecimalStrings(left, right).Ok? <==> Compare(left, right).Ok?
    ensures Compare(left, right).Ok? ==>
              && CompareDecimalStrings(left, right).value == Compare(left, right).value
              && CompareDecimalStrings(left, right).value == Sign(ValueOf(Trim(left)) - ValueOf(Trim(right)))
  {
    NormalFormsAgree(left);
    NormalFormsAgree(right);
    CompareIsExact(left, right);
    hide ValueOf, Trim, IsDecimal, WholePart, FractionPart, TextGreater, PadEnd, Normalize, NormalizeDecimalString;
  }

  lemma NormalFormsAgree(value: string)
    ensures NormalizeDecimalString(value).Ok? <==> Normalize(value).Ok?
    ensures Normalize(value).Ok? ==> NormalizeDecimalString(value).value == Normalize(value).value
  {
  }

  /** `assertHolderApprovalForDistribution`; None is success. */
  function DistributionError(policy: Policy, amount: Option<string>): Option<PolicyError>
  {
    if !policy.allowDistributions then Some(DistributionsNotAllowed)
    else if !policy.distributionsEnabled then Some(DistributionsDisabled)
    else
      var comparison :=
        if Truthy(policy.maxDistributionValue) && Truthy(amount)
        then CompareDecimalStrings(amount.value, policy.maxDistributionValue.value)
        else Ok(0);
      match comparison
      case Err(e) => Some(e)
      case Ok(c) =>
        if c > 0 then Some(LimitExceeded)
        else if policy.requiresAuthorizedTrustlines then
          (if policy.holder == Some(Authorized) then None else Some(TrustlineNotAuthorized))
        else if !policy.requireHolderApproval then None
        else if policy.holder == Some(Approved) || policy.holder == Some(Authorized) then None
        else Some(HolderNotApproved)
  }

  /** The amount is a number not above the limit, whenever there are both. */
  ghost predicate WithinLimit(amount: Option<string>, limit: Option<string>)
  {
    Truthy(limit) && Truthy(amount) ==>
      && IsDecimal(Trim(amount.value)) && IsDecimal(Trim(limit.value))
      && ValueOf(Trim(amount.value)) <= ValueOf(Trim(limit.value))
  }

  ghost predicate HolderQualifies(policy: Policy)
  {
    && (policy.requiresAuthorizedTrustlines ==> policy.holder == Some(Authorized))
    && (policy.requireHolderApproval ==> policy.holder == Some(Approved) || policy.holder == Some(Authorized))
  }

  /** A distribution passes exactly when it is switched on, within the limit as a number, and the holder qualifies. */
  lemma DistributionAllowedIff(policy: Policy, amount: Option<string>)
    ensures DistributionError(policy, amount).None? <==>
              && policy.allowDistributions && policy.distributionsEnabled
              && WithinLimit(amount, policy.maxDistributionValue)
              && HolderQualifies(policy)
  {
    hide CompareDecimalStrings, Compare, ValueOf, Trim, IsDecimal;
    if Truthy(policy.maxDistributionValue) && Truthy(amount) {
      CopiesAgree(amount.value, policy.maxDistributionValue.value);
      CompareIsExact(amount.value, policy.maxDistributionValue.value);
    }
  }
}
