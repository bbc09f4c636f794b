/**
 Choosing a swap quote: services/xrpl-swap.service.ts.

 Every path-finding reply lists alternatives; the service keeps the best alternative of
 each asset pair and then the best quote over all pairs. `Rank` says what "better" means
 in exact numbers, and the two nested searches are proved to find the first maximum of
 all alternatives taken together.
 */
module SwapQuotes {
  import opened Prelude
  import opened Decimals

  datatype Asset = Asset(currency: string, issuer: Option<string>)

  datatype Amount = Amount(currency: string, issuer: Option<string>, value: string)

  /** An amount as found in a reply. The library turns drops into the text `xrp`. */
  datatype RawAmount = Drops(xrp: string) | Issued(currency: string, issuer: Option<string>, value: string) | Unreadable

  datatype RawAlternative = RawAlternative(source: RawAmount, destination: RawAmount, paths: seq<string>)

  datatype Alternative = Alternative(source: Amount, destination: Amount, paths: seq<string>)

  datatype Quote = Quote(
    sourceAmount: Amount,
    quotedSourceAmount: Amount,
    destinationAmount: Amount,
    deliverMin: Amount,
    paths: seq<string>,
    slippageBps: nat)

  datatype QuoteError =
    | BadAmount
    | BadSendAmount
    | CurrencyRequired
    | IssuerRequired
    | RequestRefused
    | InvalidResponse
    | InvalidSlippage
    | NoPathFound

  const DEFAULT_SLIPPAGE_BPS: nat := 50
  const MAX_SLIPPAGE_BPS: nat := 5_000
  const BPS: nat := 10_000

  // ---------- Reading a reply ----------

  function UpperChar(c: char): char
  {
    if 'a' <= c <= 'z' then (c as int - 32) as char else c
  }

  function Upper(s: string): string { seq(|s|, i requires 0 <= i < |s| => UpperChar(s[i])) }

  function NormalizeCurrency(c: string): string { Upper(Trim(c)) }

  predicate IsXrp(currency: string) { NormalizeCurrency(currency) == "XRP" }

  function TextOr(s: Option<string>): string { if s.Some? then s.value else "" }

  function TrimOption(s: Option<string>): Option<string>
  {
    match s case None => None case Some(t) => Some(Trim(t))
  }

  /** A null result is None; a malformed number aborts the whole quote. */
  function FromXrplAmount(input: RawAmount): Result<Option<Amount>, QuoteError>
  {
    match input
    case Unreadable => Ok(None)
    case Drops(xrp) =>
      (match Normalize(xrp) case Err(_) => Err(BadAmount) case Ok(n) => Ok(Some(Amount("XRP", None, n))))
    case Issued(currency, issuer, value) =>
      if Trim(value) == "-1" then Ok(None)
      else
        match Normalize(value)
        case Err(_) => Err(BadAmount)
        case Ok(n) => Ok(Some(Amount(NormalizeCurrency(currency), TrimOption(issuer), n)))
  }

  /** `normalizeAsset`. */
  function NormalizeAsset(a: Asset): Result<Asset, QuoteError>
  {
    var currency := NormalizeCurrency(a.currency);
    if currency == "" then Err(CurrencyRequired)
    else Ok(Asset(currency, if IsXrp(currency) then None else TrimOption(a.issuer)))
  }

  /** `assertResolvedAsset`: only XRP may lack an issuer. */
  function ResolvedAsset(a: Asset): Result<Asset, QuoteError>
  {
    match NormalizeAsset(a)
    case Err(e) => Err(e)
    case Ok(n) => if !IsXrp(n.currency) && TextOr(n.issuer) == "" then Err(IssuerRequired) else Ok(n)
  }

  function MatchesAsset(amount: Amount, asset: Asset): Result<bool, QuoteError>
  {
    match ResolvedAsset(asset)
    case Err(e) => Err(e)
    case Ok(a) =>
      if NormalizeCurrency(amount.currency) != a.currency then Ok(false)
      else if IsXrp(a.currency) then Ok(true)
      else Ok(Lower(TextOr(amount.issuer)) == Lower(TextOr(a.issuer)))
  }

  /** `sameAsset`: two issued assets of one currency are the same unless both name different issuers. */
  function SameAsset(left: Asset, right: Asset): Result<bool, QuoteError>
  {
    match NormalizeAsset(left)
    case Err(e) => Err(e)
    case Ok(l) =>
      match NormalizeAsset(right)
      case Err(e) => Err(e)
      case Ok(r) =>
        var li, ri := TextOr(l.issuer), TextOr(r.issuer);
        Ok(l.currency == r.currency && (IsXrp(l.currency) || li == "" || ri == "" || Lower(li) == Lower(ri)))
  }

  function ParseAlternative(raw: RawAlternative, source: Asset, destination: Asset)
    : (r: Result<Option<Alternative>, QuoteError>)
  {
    match FromXrplAmount(raw.source)
    case Err(e) => Err(e)
    case Ok(s) =>
      match FromXrplAmount(raw.destination)
      case Err(e) => Err(e)
      case Ok(d) =>
        if s.None? || d.None? then Ok(None)
        else
          match MatchesAsset(s.value, source)
          case Err(e) => Err(e)
          case Ok(false) => Ok(None)
          case Ok(true) =>
            match MatchesAsset(d.value, destination)
            case Err(e) => Err(e)
            case Ok(false) => Ok(None)
            case Ok(true) => Ok(Some(Alternative(s.value, d.value, raw.paths)))
  }

  /** The alternatives of a reply that fit the pair, in order; the first error wins. */
  ghost function ParseAll(raws: seq<RawAlternative>, source: Asset, destination: Asset)
    : Result<seq<Alternative>, QuoteError>
  {
    if raws == [] then Ok([])
    else
      match ParseAll(raws[..|raws| - 1], source, destination)
      case Err(e) => Err(e)
      case Ok(front) =>
        match ParseAlternative(raws[|raws| - 1], source, destination)
        case Err(e) => Err(e)
        case Ok(None) => Ok(front)
        case Ok(Some(a)) => Ok(front + [a])
  }

  ghost predicate WellFormed(a: Alternative)
  {
    Canonical(a.source.value) && Canonical(a.destination.value)
  }

  lemma ParsedIsWellFormed(raw: RawAlternative, source: Asset, destination: Asset)
    ensures var p := ParseAlternative(raw, source, destination);
            p.Ok? && p.value.Some? ==> WellFormed(p.value.value)
  {
    hide Canonical, Normalize, Trim, MatchesAsset, FromXrplAmount;
    ReadAmountIsCanonical(raw.source);
    ReadAmountIsCanonical(raw.destination);
  }

  lemma ReadAmountIsCanonical(a: RawAmount)
    ensures FromXrplAmount(a).Ok? && FromXrplAmount(a).value.Some? ==>
              Canonical(FromXrplAmount(a).value.value.value)
  {
    hide Canonical, Normalize, Trim;
    match a
    case Unreadable =>
    case Drops(xrp) => NormalizeKeepsValue(xrp);
    case Issued(_, _, value) => NormalizeKeepsValue(value);
  }

  // ---------- What fits a pair ----------

  /** The reply gives an amount; a value of -1 stands for none. */
  predicate HasAmount(raw: RawAmount)
  {
    match raw
    case Unreadable => false
    case Drops(_) => true
    case Issued(_, _, value) => Trim(value) != "-1"
  }

  /** The amount, if there is one, is a decimal number. */
  predicate Readable(raw: RawAmount)
  {
    match raw
    case Unreadable => true
    case Drops(xrp) => IsDecimal(Trim(xrp))
    case Issued(_, _, value) => Trim(value) == "-1" || IsDecimal(Trim(value))
  }

  ghost function NumberIn(raw: RawAmount): real
  {
    match raw
    case Unreadable => 0.0
    case Drops(xrp) => NumberOf(Trim(xrp))
    case Issued(_, _, value) => NumberOf(Trim(value))
  }

  predicate IsNamed(a: Asset) { Trim(a.currency) != "" }

  ghost predicate NamesXrp(currency: string) { SameLetters(Trim(currency), "XRP") }

  ghost predicate IsResolved(a: Asset)
  {
    IsNamed(a) && (NamesXrp(a.currency) || (a.issuer.Some? && Trim(a.issuer.value) != ""))
  }

  /** Issuers equal up to the space around them and the case of letters; none is like an empty one. */
  ghost predicate SameIssuer(a: Option<string>, b: Option<string>)
  {
    SameLetters(Trim(TextOr(a)), Trim(TextOr(b)))
  }

  /** The amount is one of this asset: the same currency and, unless it is XRP, the same issuer. */
  ghost predicate FitsSide(raw: RawAmount, asset: Asset)
  {
    match raw
    case Unreadable => false
    case Drops(_) => NamesXrp(asset.currency)
    case Issued(currency, issuer, value) =>
      && Trim(value) != "-1" && SameLetters(Trim(currency), Trim(asset.currency))
      && (NamesXrp(asset.currency) || SameIssuer(issuer, asset.issuer))
  }

  ghost predicate FitsPair(raw: RawAlternative, source: Asset, destination: Asset)
  {
    FitsSide(raw.source, source) && FitsSide(raw.destination, destination)
  }

  /** The quoted amount is the one in the reply: its currency in capitals, its issuer, its number in canonical form. */
  ghost predicate ReadsAs(raw: RawAmount, amount: Amount)
  {
    && Canonical(amount.value) && NumberOf(amount.value) == NumberIn(raw)
    && match raw
       case Unreadable => false
       case Drops(_) => amount.currency == "XRP" && amount.issuer == None
       case Issued(currency, issuer, _) =>
         && SameLetters(amount.currency, Trim(currency))
         && (forall i :: 0 <= i < |amount.currency| ==> !('a' <= amount.currency[i] <= 'z'))
         && amount.issuer == if issuer.None? then None else Some(Trim(issuer.value))
  }

  lemma UpperIs(s: string, t: string)
    ensures SameLetters(Upper(s), s) && forall i :: 0 <= i < |s| ==> !('a' <= Upper(s)[i] <= 'z')
    ensures Upper(s) == Upper(t) <==> SameLetters(s, t)
  {
    if SameLetters(s, t) {
      forall i | 0 <= i < |s| ensures UpperChar(s[i]) == UpperChar(t[i]) { assert SameLetter(s[i], t[i]); }
    }
    if Upper(s) == Upper(t) {
      forall i | 0 <= i < |s| ensures SameLetter(s[i], t[i]) { assert Upper(s)[i] == Upper(t)[i]; }
    }
  }

  lemma SameLettersTrimmed(s: string)
    ensures Trim(Upper(Trim(s))) == Upper(Trim(s))
    ensures Upper(Upper(s)) == Upper(s)
    ensures Upper(s) == "" <==> s == ""
  {
    var t := Trim(s);
    var front, back := TrimIs(s);
    if t != "" {
      assert Upper(t)[0] == UpperChar(t[0]) && Upper(t)[|t| - 1] == UpperChar(t[|t| - 1]);
      TrimKeepsSolidEnds(Upper(t));
    }
    assert forall i :: 0 <= i < |s| ==> UpperChar(UpperChar(s[i])) == UpperChar(s[i]);
  }

  lemma NormalTwice(c: string)
    ensures NormalizeCurrency(NormalizeCurrency(c)) == NormalizeCurrency(c)
    ensures IsXrp(NormalizeCurrency(c)) <==> IsXrp(c)
    ensures IsXrp(c) <==> NamesXrp(c)
    ensures NormalizeCurrency(c) != "" <==> Trim(c) != ""
  {
    hide Trim, Upper;
    SameLettersTrimmed(c);
    SameLettersTrimmed(Trim(c));
    UpperIs(Trim(c), "XRP");
    UpperOfXrp();
  }

  lemma UpperOfXrp()
    ensures Upper("XRP") == "XRP"
  {
  }

  /** An amount that is read is matched against an asset as `FitsSide` says. */
  lemma MatchesIff(raw: RawAmount, asset: Asset)
    requires FromXrplAmount(raw).Ok? && FromXrplAmount(raw).value.Some?
    ensures MatchesAsset(FromXrplAmount(raw).value.value, asset).Ok? <==> IsResolved(asset)
    ensures IsResolved(asset) ==> MatchesAsset(FromXrplAmount(raw).value.value, asset) == Ok(FitsSide(raw, asset))
  {
    hide Trim, Upper, Lower, Normalize, SameLetters;
    NormalTwice(asset.currency);
    NormalTwice("XRP");
    NamesItself();
    UpperIs(Trim("XRP"), Trim(asset.currency));
    if asset.issuer.Some? { TrimTwice(asset.issuer.value); }
    if raw.Issued? {
      NormalTwice(raw.currency);
      UpperIs(Trim(raw.currency), Trim(asset.currency));
      LowerIs(Trim(TextOr(raw.issuer)), Trim(TextOr(asset.issuer)));
      EmptyTrim();
    }
  }

  /** Reading fails on exactly the amounts that are no numbers, and gives what the reply says. */
  lemma ReadIs(raw: RawAmount)
    ensures FromXrplAmount(raw).Ok? <==> Readable(raw)
    ensures FromXrplAmount(raw).Ok? ==>
              (FromXrplAmount(raw).value.Some? <==> HasAmount(raw))
              && (HasAmount(raw) ==> ReadsAs(raw, FromXrplAmount(raw).value.value))
  {
    hide Trim, Normalize, Canonical, IsDecimal, ValueOf;
    match raw
    case Unreadable =>
    case Drops(xrp) => NormalizeKeepsValue(xrp); CanonicalIsDecimal(xrp);
    case Issued(currency, _, value) =>
      NormalizeKeepsValue(value);
      CanonicalIsDecimal(value);
      UpperIs(Trim(currency), "");
  }

  lemma CanonicalIsDecimal(value: string)
    ensures Normalize(value).Ok? && Canonical(Normalize(value).value) ==> IsDecimal(Normalize(value).value)
  {
  }

  /** An alternative of the reply causes no error. */
  ghost predicate OneFine(raw: RawAlternative, source: Asset, destination: Asset)
  {
    && Readable(raw.source) && Readable(raw.destination)
    && (HasAmount(raw.source) && HasAmount(raw.destination) ==>
          IsResolved(source) && (FitsSide(raw.source, source) ==> IsResolved(destination)))
  }

  ghost predicate ReadsAlternative(raw: RawAlternative, a: Alternative)
  {
    ReadsAs(raw.source, a.source) && ReadsAs(raw.destination, a.destination) && a.paths == raw.paths
  }

  /** An alternative is kept exactly when both its amounts fit. */
  lemma KeptIff(raw: RawAlternative, source: Asset, destination: Asset)
    ensures var p := ParseAlternative(raw, source, destination);
            && (p.Ok? <==> OneFine(raw, source, destination))
            && (p.Ok? ==> (p.value.Some? <==> FitsPair(raw, source, destination)))
            && (p.Ok? && p.value.Some? ==> ReadsAlternative(raw, p.value.value))
  {
    hide FromXrplAmount, MatchesAsset, ReadsAs, IsResolved, Readable;
    ReadIs(raw.source);
    ReadIs(raw.destination);
    if FromXrplAmount(raw.source).Ok? && HasAmount(raw.source) { MatchesIff(raw.source, source); }
    if FromXrplAmount(raw.destination).Ok? && HasAmount(raw.destination) { MatchesIff(raw.destination, destination); }
  }

  /** The positions of the alternatives that fit, in order. */
  ghost predicate Picks(ks: seq<nat>, raws: seq<RawAlternative>, source: Asset, destination: Asset)
  {
    && (forall a :: 0 <= a < |ks| ==> ks[a] < |raws| && FitsPair(raws[ks[a]], source, destination))
    && (forall a, b :: 0 <= a < b < |ks| ==> ks[a] < ks[b])
    && (forall n :: 0 <= n < |raws| && FitsPair(raws[n], source, destination) ==> n in ks)
  }

  lemma PicksOneMore(ks: seq<nat>, raws: seq<RawAlternative>, last: RawAlternative, source: Asset, destination: Asset)
    requires Picks(ks, raws, source, destination) && FitsPair(last, source, destination)
    ensures Picks(ks + [|raws|], raws + [last], source, destination)
  {
    hide FitsPair;
    var all, more := ks + [|raws|], raws + [last];
    forall n | 0 <= n < |more| && FitsPair(more[n], source, destination) ensures n in all {
      if n == |raws| { assert all[|ks|] == n; }
    }
  }

  lemma PicksNoMore(ks: seq<nat>, raws: seq<RawAlternative>, last: RawAlternative, source: Asset, destination: Asset)
    requires Picks(ks, raws, source, destination) && !FitsPair(last, source, destination)
    ensures Picks(ks, raws + [last], source, destination)
  {
    hide FitsPair;
  }

  /** The kept alternatives are these, as the reply gives them. */
  ghost predicate ReadsThose(raws: seq<RawAlternative>, ks: seq<nat>, list: seq<Alternative>)
  {
    |list| == |ks| && forall k :: 0 <= k < |ks| ==> ks[k] < |raws| && ReadsAlternative(raws[ks[k]], list[k])
  }

  /** Reading a reply keeps exactly the alternatives that fit, as the reply gives them and in its order. */
  lemma {:induction false} ParseAllKeeps(raws: seq<RawAlternative>, source: Asset, destination: Asset)
    returns (ks: seq<nat>)
    ensures Picks(ks, raws, source, destination)
    ensures var p := ParseAll(raws, source, destination);
            && (p.Ok? <==> forall n :: 0 <= n < |raws| ==> OneFine(raws[n], source, destination))
            && (p.Ok? ==> ReadsThose(raws, ks, p.value))
  {
    hide ParseAlternative, OneFine, FitsPair, ReadsAlternative, Picks;
    if raws == [] {
      ks := [];
      NothingPicked(source, destination);
    } else {
      var n := |raws| - 1;
      ks := ParseAllKeeps(raws[..n], source, destination);
      KeptIff(raws[n], source, destination);
      assert raws[..n] + [raws[n]] == raws;
      if FitsPair(raws[n], source, destination) {
        PicksOneMore(ks, raws[..n], raws[n], source, destination);
        ks := ks + [n];
      } else {
        PicksNoMore(ks, raws[..n], raws[n], source, destination);
      }
    }
  }

  lemma NothingPicked(source: Asset, destination: Asset)
    ensures Picks([], [], source, destination)
  {
  }

  lemma NamesItself()
    ensures Trim("XRP") == "XRP" && NormalizeCurrency("XRP") == "XRP"
    ensures forall c: string :: NamesXrp(c) <==> SameLetters("XRP", Trim(c))
  {
  }

  lemma EmptyTrim()
    ensures Trim("") == ""
  {
  }

  // ---------- Better and best ----------

  /** What an alternative delivers and what it costs, as numbers. */
  datatype Rank = Rank(delivered: real, spent: real)

  ghost predicate Beats(a: Rank, b: Rank)
  {
    a.delivered > b.delivered || (a.delivered == b.delivered && a.spent < b.spent)
  }

  /** Position `k` holds the earliest of the unbeaten ranks. */
  ghost predicate FirstBest(k: nat, ranks: seq<Rank>)
  {
    && k < |ranks|
    && (forall j :: 0 <= j < k ==> Beats(ranks[k], ranks[j]))
    && (forall j :: k < j < |ranks| ==> !Beats(ranks[j], ranks[k]))
  }

  lemma LaterDoesNotBeat(j: nat, k: nat, ranks: seq<Rank>)
    requires FirstBest(j, ranks) && j < k < |ranks|
    ensures !Beats(ranks[k], ranks[j])
  {
  }

  /** There is only one such position. */
  lemma FirstBestUnique(j: nat, k: nat, ranks: seq<Rank>)
    requires FirstBest(j, ranks) && FirstBest(k, ranks)
    ensures j == k
  {
    if j < k {
      LaterDoesNotBeat(j, k, ranks);
    } else if k < j {
      LaterDoesNotBeat(k, j, ranks);
    }
  }

  /** The winner of the left part stays unless the winner of the right part beats it. */
  lemma FirstBestOfConcat(left: seq<Rank>, j: nat, right: seq<Rank>, k: nat)
    requires FirstBest(j, left) && FirstBest(k, right)
    ensures Beats(right[k], left[j]) ==> FirstBest(|left| + k, left + right)
    ensures !Beats(right[k], left[j]) ==> FirstBest(j, left + right)
  {
  }

  ghost function NumberOf(s: string): real
  {
    if IsDecimal(s) then ValueOf(s) else 0.0
  }

  ghost function RankOf(source: Amount, destination: Amount): Rank
  {
    Rank(NumberOf(destination.value), NumberOf(source.value))
  }

  ghost function RanksOf(alternatives: seq<Alternative>): seq<Rank>
  {
    seq(|alternatives|, i requires 0 <= i < |alternatives| =>
      RankOf(alternatives[i].source, alternatives[i].destination))
  }

  lemma CanonicalCompare(a: string, b: string)
    requires Canonical(a) && Canonical(b)
    ensures Compare(a, b) == Ok(Sign(NumberOf(a) - NumberOf(b)))
  {
    CanonicalIsNormal(a);
    CanonicalIsNormal(b);
    NormalizeKeepsValue(a);
    NormalizeKeepsValue(b);
    TrimmedCanonical(a);
    TrimmedCanonical(b);
    CompareIsExact(a, b);
  }

  /** The comparison both pickers make: 1 when `challenger` delivers more, or the same for less. */
  predicate Improves(challengerSource: string, challengerDelivers: string, holderSource: string, holderDelivers: string)
  {
    var c := Compare(challengerDelivers, holderDelivers);
    c == Ok(1) || (c == Ok(0) && Compare(challengerSource, holderSource) == Ok(-1))
  }

  lemma ImprovesIsBeats(cs: Amount, cd: Amount, hs: Amount, hd: Amount)
    requires Canonical(cs.value) && Canonical(cd.value) && Canonical(hs.value) && Canonical(hd.value)
    ensures Improves(cs.value, cd.value, hs.value, hd.value) <==> Beats(RankOf(cs, cd), RankOf(hs, hd))
  {
    CanonicalCompare(cd.value, hd.value);
    CanonicalCompare(cs.value, hs.value);
  }

  // ---------- The search over one reply ----------

  /** `best` is the first best of the list, and absent only when the list is empty. */
  ghost predicate BestIn<T(!new)>(best: Option<T>, list: seq<T>, ranks: seq<Rank>)
    requires |list| == |ranks|
  {
    match best
    case None => list == []
    case Some(a) => exists k: nat :: FirstBest(k, ranks) && list[k] == a
  }

  lemma PositionOfBest<T(!new)>(best: T, list: seq<T>, ranks: seq<Rank>) returns (k: nat)
    requires |list| == |ranks| && BestIn(Some(best), list, ranks)
    ensures k < |list| && FirstBest(k, ranks) && list[k] == best
  {
    k :| FirstBest(k, ranks) && list[k] == best;
  }

  /** The best of two lists joined, from the bests of the lists. */
  lemma JoinBest<T(!new)>(best: Option<T>, list: seq<T>, ranks: seq<Rank>, rank: Rank,
                          other: T, otherList: seq<T>, otherRanks: seq<Rank>, otherRank: Rank)
    requires |list| == |ranks| && |otherList| == |otherRanks|
    requires BestIn(best, list, ranks) && BestIn(Some(other), otherList, otherRanks)
    requires forall k: nat :: FirstBest(k, ranks) ==> ranks[k] == rank
    requires forall k: nat :: FirstBest(k, otherRanks) ==> otherRanks[k] == otherRank
    ensures BestIn(if best.Some? && !Beats(otherRank, rank) then best else Some(other),
                   list + otherList, ranks + otherRanks)
  {
    hide Beats;
    var m: nat :| FirstBest(m, otherRanks) && otherList[m] == other;
    if best.Some? {
      var k: nat :| FirstBest(k, ranks) && list[k] == best.value;
      FirstBestOfConcat(ranks, k, otherRanks, m);
      if Beats(otherRank, rank) {
        assert FirstBest(|list| + m, ranks + otherRanks) && (list + otherList)[|list| + m] == other;
      } else {
        assert FirstBest(k, ranks + otherRanks) && (list + otherList)[k] == best.value;
      }
    } else {
      assert ranks + otherRanks == otherRanks && list + otherList == otherList;
    }
  }

  lemma RankOfBest<T(!new)>(best: T, list: seq<T>, ranks: seq<Rank>, k: nat)
    requires |list| == |ranks| && FirstBest(k, ranks) && list[k] == best
    ensures forall j: nat :: FirstBest(j, ranks) ==> ranks[j] == ranks[k]
  {
  }

  /** An error in a prefix is the error of the whole list. */
  lemma {:induction false} ErrorPersists(raws: seq<RawAlternative>, n: nat, source: Asset, destination: Asset)
    requires n <= |raws| && ParseAll(raws[..n], source, destination).Err?
    ensures ParseAll(raws, source, destination) == ParseAll(raws[..n], source, destination)
  {
    hide ParseAlternative;
    if n < |raws| {
      assert raws[..|raws| - 1][..n] == raws[..n];
      ErrorPersists(raws[..|raws| - 1], n, source, destination);
    } else {
      assert raws[..n] == raws;
    }
  }

  function ChooseAlternative(best: Option<Alternative>, next: Alternative): Alternative
  {
    if best.Some? && !Improves(next.source.value, next.destination.value,
                               best.value.source.value, best.value.destination.value)
    then best.value else next
  }

  lemma ExtendBest(best: Option<Alternative>, list: seq<Alternative>, next: Alternative)
    requires BestIn(best, list, RanksOf(list)) && (best.Some? ==> WellFormed(best.value)) && WellFormed(next)
    ensures BestIn(Some(ChooseAlternative(best, next)), list + [next], RanksOf(list + [next]))
    ensures WellFormed(ChooseAlternative(best, next))
  {
    hide Compare, Canonical, IsDecimal, ValueOf, NumberOf;
    var ranks, last, rank := RanksOf(list), RanksOf([next]), Rank(0.0, 0.0);
    assert RanksOf(list + [next]) == ranks + last;
    assert FirstBest(0, last) && [next][0] == next;
    RankOfBest(next, [next], last, 0);
    if best.Some? {
      var k: nat :| FirstBest(k, ranks) && list[k] == best.value;
      rank := ranks[k];
      RankOfBest(best.value, list, ranks, k);
      ImprovesIsBeats(next.source, next.destination, best.value.source, best.value.destination);
    }
    JoinBest(best, list, ranks, rank, next, [next], last, last[0]);
  }

  /** What an alternative of a reply delivers and what it costs. */
  ghost function RankIn(raw: RawAlternative): Rank { Rank(NumberIn(raw.destination), NumberIn(raw.source)) }

  /** Of the alternatives that fit, none is better than the n-th, and none of its equals comes before it. */
  ghost predicate BestInReply(raws: seq<RawAlternative>, source: Asset, destination: Asset, n: nat)
  {
    && n < |raws| && FitsPair(raws[n], source, destination)
    && forall m :: 0 <= m < |raws| && m != n && FitsPair(raws[m], source, destination) ==>
         !Beats(RankIn(raws[m]), RankIn(raws[n])) && (m < n ==> Beats(RankIn(raws[n]), RankIn(raws[m])))
  }

  lemma ReadRank(raw: RawAlternative, a: Alternative)
    requires ReadsAlternative(raw, a)
    ensures RankOf(a.source, a.destination) == RankIn(raw)
  {
  }

  /** The first best of what was read is the best in the reply. */
  lemma ReadBestIsBest(raws: seq<RawAlternative>, source: Asset, destination: Asset, list: seq<Alternative>,
                       best: Option<Alternative>)
    requires ParseAll(raws, source, destination) == Ok(list) && BestIn(best, list, RanksOf(list))
    ensures best.Some? ==>
              exists n: nat :: BestInReply(raws, source, destination, n) && ReadsAlternative(raws[n], best.value)
    ensures best.None? <==> forall n :: 0 <= n < |raws| ==> !FitsPair(raws[n], source, destination)
  {
    hide ParseAll, FitsPair, RankIn, FirstBest, BestInReply, Picks, ReadsAlternative;
    var ks := ParseAllKeeps(raws, source, destination);
    NoneFits(ks, raws, source, destination);
    if best.Some? {
      var k := PositionOfBest(best.value, list, RanksOf(list));
      FirstBestIsInReply(raws, source, destination, list, ks, k);
    }
  }

  lemma NoneFits(ks: seq<nat>, raws: seq<RawAlternative>, source: Asset, destination: Asset)
    requires Picks(ks, raws, source, destination)
    ensures ks == [] <==> forall n :: 0 <= n < |raws| ==> !FitsPair(raws[n], source, destination)
  {
    hide FitsPair;
    if ks != [] { assert FitsPair(raws[ks[0]], source, destination); }
  }

  lemma FirstBestIsInReply(raws: seq<RawAlternative>, source: Asset, destination: Asset, list: seq<Alternative>,
                           ks: seq<nat>, k: nat)
    requires Picks(ks, raws, source, destination) && ReadsThose(raws, ks, list) && k < |ks| && FirstBest(k, RanksOf(list))
    ensures BestInReply(raws, source, destination, ks[k]) && ReadsAlternative(raws[ks[k]], list[k])
  {
    hide FitsPair, Beats, ReadsAlternative, RankIn, FirstBest, RanksOf;
    var n := ks[k];
    RankRead(raws, ks, list, k);
    forall m | 0 <= m < |raws| && m != n && FitsPair(raws[m], source, destination)
      ensures !Beats(RankIn(raws[m]), RankIn(raws[n])) && (m < n ==> Beats(RankIn(raws[n]), RankIn(raws[m])))
    {
      var j :| 0 <= j < |ks| && ks[j] == m;
      RankRead(raws, ks, list, j);
      Unbeaten(RanksOf(list), k, j);
    }
  }

  lemma RankRead(raws: seq<RawAlternative>, ks: seq<nat>, list: seq<Alternative>, k: nat)
    requires ReadsThose(raws, ks, list) && k < |ks|
    ensures k < |RanksOf(list)| == |list| && RanksOf(list)[k] == RankIn(raws[ks[k]])
  {
    ReadRank(raws[ks[k]], list[k]);
  }

  lemma Unbeaten(ranks: seq<Rank>, k: nat, j: nat)
    requires FirstBest(k, ranks) && j < |ranks| && j != k
    ensures k < |ranks| && !Beats(ranks[j], ranks[k]) && (j < k ==> Beats(ranks[k], ranks[j]))
  {
  }

  /** `pickBestAlternative`: the first best of the alternatives that fit, or the first error. */
  method PickBestAlternative(alternatives: seq<RawAlternative>, source: Asset, destination: Asset)
    returns (r: Result<Option<Alternative>, QuoteError>)
    ensures match ParseAll(alternatives, source, destination)
            case Err(e) => r == Err(e)
            case Ok(list) =>
              && r.Ok? && BestIn(r.value, list, RanksOf(list))
              && (r.value.Some? ==> WellFormed(r.value.value))
    ensures r.Ok? <==> forall n :: 0 <= n < |alternatives| ==> OneFine(alternatives[n], source, destination)
    ensures r.Ok? && r.value.Some? ==>
              exists n: nat :: BestInReply(alternatives, source, destination, n)
                               && ReadsAlternative(alternatives[n], r.value.value)
    ensures r.Ok? ==>
              (r.value.None? <==> forall n :: 0 <= n < |alternatives| ==> !FitsPair(alternatives[n], source, destination))
  {
    hide OneFine, FitsPair, ReadsAlternative, BestInReply;
    ghost var ks := ParseAllKeeps(alternatives, source, destination);
    hide ParseAlternative, ChooseAlternative, WellFormed, FirstBest;
    var best: Option<Alternative> := None;
    ghost var list: seq<Alternative> := [];
    for i := 0 to |alternatives|
      invariant ParseAll(alternatives[..i], source, destination) == Ok(list)
      invariant BestIn(best, list, RanksOf(list)) && (best.Some? ==> WellFormed(best.value))
    {
      assert alternatives[..i + 1][..i] == alternatives[..i];
      var parsed := ParseAlternative(alternatives[i], source, destination);
      ParsedIsWellFormed(alternatives[i], source, destination);
      if parsed.Err? {
        ErrorPersists(alternatives, i + 1, source, destination);
        return Err(parsed.error);
      }
      if parsed.value.Some? {
        var next := parsed.value.value;
        ExtendBest(best, list, next);
        best := Some(ChooseAlternative(best, next));
        list := list + [next];
      }
    }
    assert alternatives[..|alternatives|] == alternatives;
    ReadBestIsBest(alternatives, source, destination, list, best);
    return Ok(best);
  }

  // ---------- One quote per pair, and the search over all pairs ----------

  /** `normalizeAmount`. */
  function NormalizeAmount(a: Amount): Result<Amount, QuoteError>
  {
    match NormalizeAsset(Asset(a.currency, a.issuer))
    case Err(e) => Err(e)
    case Ok(asset) =>
      match Normalize(a.value)
      case Err(_) => Err(BadAmount)
      case Ok(n) => Ok(Amount(asset.currency, asset.issuer, n))
  }

  /** `normalizeSwapSlippageBps`. */
  function NormalizeSlippage(value: Option<int>): (r: Result<nat, QuoteError>)
    ensures r.Err? <==> value.Some? && !(0 <= value.value <= MAX_SLIPPAGE_BPS)
    ensures r.Ok? ==> r.value == (if value.Some? then value.value else DEFAULT_SLIPPAGE_BPS) <= MAX_SLIPPAGE_BPS
  {
    match value
    case None => Ok(DEFAULT_SLIPPAGE_BPS)
    case Some(v) => if v < 0 || v > MAX_SLIPPAGE_BPS then Err(InvalidSlippage) else Ok(v)
  }

  /** The quote built from an alternative: deliverMin is the delivered amount less the slippage. */
  function MakeQuote(source: Amount, a: Alternative, slippageBps: nat): Result<Quote, QuoteError>
    requires slippageBps <= MAX_SLIPPAGE_BPS
  {
    match MultiplyFloor(a.destination.value, BPS - slippageBps, BPS)
    case Err(_) => Err(BadAmount)
    case Ok(least) =>
      Ok(Quote(source, a.source, a.destination, a.destination.(value := least), a.paths, slippageBps))
  }

  /**
   deliverMin never exceeds the delivered amount, is the exact reduced amount up to one last digit, and equals it at
   zero slippage.
   */
  lemma DeliverMinIsSafe(source: Amount, a: Alternative, slippageBps: nat)
    requires WellFormed(a) && slippageBps <= MAX_SLIPPAGE_BPS
    ensures var r := MakeQuote(source, a, slippageBps);
            && r.Ok? && Canonical(r.value.deliverMin.value)
            && ValueOf(r.value.deliverMin.value) <= ValueOf(a.destination.value)
            && Trim(a.destination.value) == a.destination.value
            && WithinOneUnit(ValueOf(r.value.deliverMin.value), ValueOf(a.destination.value),
                             Pow10(ScaleOf(a.destination.value)) as real, (BPS - slippageBps) as real, BPS as real)
            && (slippageBps == 0 ==> r.value.deliverMin == a.destination)
  {
    TrimmedCanonical(a.destination.value);
    CanonicalIsNormal(a.destination.value);
    MultiplyFloorIsExact(a.destination.value, BPS - slippageBps, BPS);
    MultiplyFloorBounds(a.destination.value, BPS - slippageBps, BPS);
    hide MultiplyFloor, ValueOf, Canonical, Trim, WithinOneUnit, Pow10, ScaleOf, RoundedDown;
  }

  /** What the path-finding request comes to; a request may throw, or answer without a list of alternatives. */
  datatype Reply = Refused | Unusable | Alternatives(raws: seq<RawAlternative>)

  /**
   One request: candidate assets on both sides, whether the library converts an amount of XRP to drops (it refuses
   some, such as more than six decimals), and the network's reply for each pair.
   */
  datatype Search = Search(
    sources: seq<Asset>,
    destinations: seq<Asset>,
    value: string,
    slippageBps: nat,
    converts: string -> bool,
    reply: (nat, nat) -> Reply)

  ghost predicate ValidSearch(q: Search) { q.slippageBps <= MAX_SLIPPAGE_BPS }

  function SourceAmount(source: Asset, value: string): Result<Amount, QuoteError>
  {
    NormalizeAmount(Amount(source.currency, source.issuer, value))
  }

  /** `buildPathFindSendMax`: only an amount of XRP is converted; what else does not suit the network it refuses. */
  predicate CanSend(q: Search, source: Amount)
  {
    IsXrp(source.currency) ==> q.converts(source.value)
  }

  ghost function QuotesOf(source: Amount, list: seq<Alternative>, slippageBps: nat): seq<Quote>
    requires slippageBps <= MAX_SLIPPAGE_BPS
    requires forall i :: 0 <= i < |list| ==> MakeQuote(source, list[i], slippageBps).Ok?
  {
    seq(|list|, i requires 0 <= i < |list| => MakeQuote(source, list[i], slippageBps).value)
  }

  ghost function QuoteRanks(list: seq<Quote>): seq<Rank>
  {
    seq(|list|, i requires 0 <= i < |list| => RankOf(list[i].quotedSourceAmount, list[i].destinationAmount))
  }

  ghost predicate GoodQuote(q: Quote)
  {
    Canonical(q.quotedSourceAmount.value) && Canonical(q.destinationAmount.value)
  }

  lemma {:induction false} ParseAllWellFormed(raws: seq<RawAlternative>, source: Asset, destination: Asset)
    ensures var p := ParseAll(raws, source, destination);
            p.Ok? ==> forall i :: 0 <= i < |p.value| ==> WellFormed(p.value[i])
  {
    if raws != [] {
      ParseAllWellFormed(raws[..|raws| - 1], source, destination);
      ParsedIsWellFormed(raws[|raws| - 1], source, destination);
    }
  }

  lemma QuotesExist(source: Amount, list: seq<Alternative>, slippageBps: nat)
    requires slippageBps <= MAX_SLIPPAGE_BPS
    requires forall i :: 0 <= i < |list| ==> WellFormed(list[i])
    ensures forall i :: 0 <= i < |list| ==> MakeQuote(source, list[i], slippageBps).Ok?
  {
    forall i | 0 <= i < |list| ensures MakeQuote(source, list[i], slippageBps).Ok? {
      DeliverMinIsSafe(source, list[i], slippageBps);
    }
  }

  /** Every quote the pair could give: one for each of its alternatives that fit, or the first error. */
  ghost function PairOffers(q: Search, i: nat, j: nat): Result<seq<Quote>, QuoteError>
    requires ValidSearch(q) && i < |q.sources| && j < |q.destinations|
  {
    match SameAsset(q.sources[i], q.destinations[j])
    case Err(e) => Err(e)
    case Ok(true) => Ok([])
    case Ok(false) =>
      match SourceAmount(q.sources[i], q.value)
      case Err(e) => Err(e)
      case Ok(source) =>
        match ResolvedAsset(q.destinations[j])
        case Err(e) => Err(e)
        case Ok(destination) =>
          if !CanSend(q, source) then Err(BadSendAmount)
          else
            match q.reply(i, j)
            case Refused => Err(RequestRefused)
            case Unusable => Err(InvalidResponse)
            case Alternatives(raws) =>
              var sourceAsset := Asset(source.currency, source.issuer);
              match ParseAll(raws, sourceAsset, destination)
              case Err(e) => Err(e)
              case Ok(list) =>
                ParseAllWellFormed(raws, sourceAsset, destination);
                QuotesExist(source, list, q.slippageBps);
                Ok(QuotesOf(source, list, q.slippageBps))
  }

  ghost function Join(a: Result<seq<Quote>, QuoteError>, b: Result<seq<Quote>, QuoteError>): Result<seq<Quote>, QuoteError>
  {
    match a
    case Err(e) => Err(e)
    case Ok(x) => match b case Err(e) => Err(e) case Ok(y) => Ok(x + y)
  }

  /** Pairs of source `i` with the first `m` destinations. */
  ghost function RowOffers(q: Search, i: nat, m: nat): Result<seq<Quote>, QuoteError>
    requires ValidSearch(q) && i < |q.sources| && m <= |q.destinations|
  {
    if m == 0 then Ok([]) else Join(RowOffers(q, i, m - 1), PairOffers(q, i, m - 1))
  }

  /** Pairs of the first `n` sources with all destinations, concatenated in the order of the search. */
  ghost function OffersBefore(q: Search, n: nat): Result<seq<Quote>, QuoteError>
    requires ValidSearch(q) && n <= |q.sources|
  {
    if n == 0 then Ok([]) else Join(OffersBefore(q, n - 1), RowOffers(q, n - 1, |q.destinations|))
  }

  ghost function AllOffers(q: Search): Result<seq<Quote>, QuoteError>
    requires ValidSearch(q)
  {
    OffersBefore(q, |q.sources|)
  }

  // ---------- What the search looks for ----------

  /** Two assets are taken for the same unless both name issuers and these differ. */
  ghost predicate TakenForSame(a: Asset, b: Asset)
  {
    && SameLetters(Trim(a.currency), Trim(b.currency))
    && (NamesXrp(a.currency) || Trim(TextOr(a.issuer)) == "" || Trim(TextOr(b.issuer)) == ""
        || SameIssuer(a.issuer, b.issuer))
  }

  /** Alternative n in the reply to source i and destination j. */
  datatype Place = Place(i: nat, j: nat, n: nat)

  ghost predicate Earlier(a: Place, b: Place)
  {
    a.i < b.i || (a.i == b.i && (a.j < b.j || (a.j == b.j && a.n < b.n)))
  }

  /** The reply has this alternative, for different assets, and it fits them. */
  ghost predicate Offered(q: Search, p: Place)
  {
    && p.i < |q.sources| && p.j < |q.destinations| && !TakenForSame(q.sources[p.i], q.destinations[p.j])
    && q.reply(p.i, p.j).Alternatives? && p.n < |q.reply(p.i, p.j).raws|
    && FitsPair(q.reply(p.i, p.j).raws[p.n], q.sources[p.i], q.destinations[p.j])
  }

  /** How many of the smallest written amounts make one. */
  ghost function UnitsPerOne(s: string): (u: real)
    requires IsDecimal(s)
    ensures u > 0.0
  {
    Pow10(ScaleOf(s)) as real
  }

  /** The least to be delivered is the destination amount less the slippage, rounded down to its last digit. */
  ghost predicate DeliversSafely(quote: Quote)
  {
    var most, least := quote.destinationAmount, quote.deliverMin;
    && Canonical(most.value) && Canonical(least.value) && least == most.(value := least.value)
    && ValueOf(least.value) <= ValueOf(most.value)
    && WithinOneUnit(ValueOf(least.value), ValueOf(most.value), UnitsPerOne(most.value),
                     (BPS - quote.slippageBps) as real, BPS as real)
    && (quote.slippageBps == 0 ==> least == most)
  }

  /** The quote gives the amounts and paths of this alternative, for the amount asked for. */
  ghost predicate Quotes(q: Search, p: Place, quote: Quote)
  {
    && Offered(q, p)
    && var raw := q.reply(p.i, p.j).raws[p.n];
       && ReadsAs(raw.source, quote.quotedSourceAmount) && ReadsAs(raw.destination, quote.destinationAmount)
       && quote.paths == raw.paths && quote.slippageBps == q.slippageBps
       && SameLetters(quote.sourceAmount.currency, Trim(q.sources[p.i].currency))
       && Canonical(quote.sourceAmount.value) && NumberOf(quote.sourceAmount.value) == NumberOf(Trim(q.value))
       && DeliversSafely(quote)
  }

  /** Nothing about this pair makes the search fail. */
  ghost predicate PairFine(q: Search, i: nat, j: nat)
    requires i < |q.sources| && j < |q.destinations|
  {
    var source, destination := q.sources[i], q.destinations[j];
    && IsNamed(source) && IsNamed(destination)
    && (TakenForSame(source, destination)
        || (&& IsDecimal(Trim(q.value)) && IsResolved(destination)
            && (NamesXrp(source.currency) ==> q.converts(Normalize(q.value).value))
            && q.reply(i, j).Alternatives?
            && forall n :: 0 <= n < |q.reply(i, j).raws| ==> OneFine(q.reply(i, j).raws[n], source, destination)))
  }

  ghost predicate SearchFine(q: Search)
  {
    forall i, j :: 0 <= i < |q.sources| && 0 <= j < |q.destinations| ==> PairFine(q, i, j)
  }

  lemma SameAssetIff(a: Asset, b: Asset)
    ensures SameAsset(a, b).Ok? <==> IsNamed(a) && IsNamed(b)
    ensures SameAsset(a, b).Ok? ==> SameAsset(a, b).value == TakenForSame(a, b)
  {
    hide Trim, Upper, Lower, SameLetters;
    NormalTwice(a.currency);
    NormalTwice(b.currency);
    UpperIs(Trim(a.currency), Trim(b.currency));
    EmptyTrim();
    if NormalizeAsset(a).Ok? && NormalizeAsset(b).Ok? && !IsXrp(a.currency) && !IsXrp(b.currency) {
      LowerIs(Trim(TextOr(a.issuer)), Trim(TextOr(b.issuer)));
    }
  }

  /** Normalising an asset changes nothing about what fits it. */
  lemma NormalizedFitsTheSame(a: Asset, raw: RawAmount)
    requires NormalizeAsset(a).Ok?
    ensures var n := NormalizeAsset(a).value;
            && (FitsSide(raw, n) <==> FitsSide(raw, a)) && (IsResolved(n) <==> IsResolved(a))
            && SameLetters(n.currency, Trim(a.currency))
  {
    hide Trim, Upper, SameLetters;
    var n := NormalizeAsset(a).value;
    NormalTwice(a.currency);
    SameLettersTrimmed(a.currency);
    UpperIs(Trim(a.currency), "");
    TrimTwice(TextOr(a.issuer));
    EmptyTrim();
    NamesXrpAlike(n.currency, a.currency);
    if raw.Issued? { SameLettersJoin(Trim(raw.currency), Trim(n.currency), Trim(a.currency)); }
  }

  lemma NamesXrpAlike(a: string, b: string)
    requires SameLetters(Trim(a), Trim(b))
    ensures NamesXrp(a) <==> NamesXrp(b)
  {
    SameLettersJoin("XRP", Trim(a), Trim(b));
    UpperIs(Trim(a), "XRP");
    UpperIs(Trim(b), "XRP");
    UpperIs(Trim(a), Trim(b));
  }

  lemma SameLettersJoin(x: string, a: string, b: string)
    requires SameLetters(a, b)
    ensures SameLetters(x, a) <==> SameLetters(x, b)
  {
    UpperIs(x, a);
    UpperIs(x, b);
    UpperIs(a, b);
  }

  lemma QuoteTells(source: Amount, a: Alternative, slippageBps: nat)
    requires WellFormed(a) && slippageBps <= MAX_SLIPPAGE_BPS
    ensures MakeQuote(source, a, slippageBps).Ok?
    ensures var quote := MakeQuote(source, a, slippageBps).value;
            && quote.sourceAmount == source && quote.quotedSourceAmount == a.source
            && quote.destinationAmount == a.destination && quote.paths == a.paths && quote.slippageBps == slippageBps
            && DeliversSafely(quote)
  {
    hide WithinOneUnit, ValueOf, Canonical, Trim, MultiplyFloor, Pow10, ScaleOf;
    DeliverMinIsSafe(source, a, slippageBps);
  }

  /** The places a listing covers, in their order, and its quotes. */
  ghost predicate Lists(q: Search, offers: seq<Quote>, places: seq<Place>)
  {
    && |offers| == |places|
    && (forall k :: 0 <= k < |places| ==> Quotes(q, places[k], offers[k]))
    && (forall a, b :: 0 <= a < b < |places| ==> Earlier(places[a], places[b]))
  }

  /** The listing has every offered place of a pair, of the first pairs of a source, or of the first sources. */
  ghost predicate CoversPair(q: Search, places: seq<Place>, i: nat, j: nat)
  {
    && (forall p :: p in places ==> p.i == i && p.j == j)
    && (forall p :: Offered(q, p) && p.i == i && p.j == j ==> p in places)
  }

  ghost predicate CoversRow(q: Search, places: seq<Place>, i: nat, m: nat)
  {
    && (forall p :: p in places ==> p.i == i && p.j < m)
    && (forall p :: Offered(q, p) && p.i == i && p.j < m ==> p in places)
  }

  ghost predicate CoversBefore(q: Search, places: seq<Place>, n: nat)
  {
    && (forall p :: p in places ==> p.i < n)
    && (forall p :: Offered(q, p) && p.i < n ==> p in places)
  }

  lemma SourceIs(source: Asset, value: string)
    ensures SourceAmount(source, value).Ok? <==> IsNamed(source) && IsDecimal(Trim(value))
    ensures SourceAmount(source, value).Ok? ==>
              && NormalizeAsset(source).Ok? && Normalize(value).Ok?
              && var a, n := SourceAmount(source, value).value, NormalizeAsset(source).value;
                 && a == Amount(n.currency, n.issuer, Normalize(value).value)
                 && (IsXrp(a.currency) <==> NamesXrp(source.currency))
                 && Canonical(a.value) && NumberOf(a.value) == NumberOf(Trim(value))
  {
    hide Trim, Normalize, Canonical, ValueOf, IsDecimal, SameLetters;
    NormalTwice(source.currency);
    NormalizeKeepsValue(value);
    CanonicalIsDecimal(value);
  }

  lemma ResolvedIff(a: Asset)
    ensures ResolvedAsset(a).Ok? <==> IsResolved(a)
    ensures ResolvedAsset(a).Ok? ==> NormalizeAsset(a) == ResolvedAsset(a)
  {
    hide Trim, SameLetters;
    NormalTwice(a.currency);
    NormalTwice(NormalizeCurrency(a.currency));
    EmptyTrim();
  }

  lemma NormalizedPairIsTheSame(raw: RawAlternative, a: Asset, b: Asset)
    requires NormalizeAsset(a).Ok? && NormalizeAsset(b).Ok?
    ensures var m, n := NormalizeAsset(a).value, NormalizeAsset(b).value;
            && (OneFine(raw, m, n) <==> OneFine(raw, a, b)) && (FitsPair(raw, m, n) <==> FitsPair(raw, a, b))
  {
    hide NormalizeAsset, FitsSide, IsResolved, Readable, HasAmount;
    NormalizedFitsTheSame(a, raw.source);
    NormalizedFitsTheSame(b, raw.destination);
  }

  lemma ReplyReads(raws: seq<RawAlternative>, a: Asset, b: Asset) returns (ks: seq<nat>)
    requires NormalizeAsset(a).Ok? && NormalizeAsset(b).Ok?
    ensures Picks(ks, raws, a, b)
    ensures var p := ParseAll(raws, NormalizeAsset(a).value, NormalizeAsset(b).value);
            && (p.Ok? <==> forall n :: 0 <= n < |raws| ==> OneFine(raws[n], a, b))
            && (p.Ok? ==> ReadsThose(raws, ks, p.value))
  {
    hide NormalizeAsset, OneFine, FitsPair, ReadsAlternative, ParseAll;
    ks := ParseAllKeeps(raws, NormalizeAsset(a).value, NormalizeAsset(b).value);
    forall n | 0 <= n < |raws|
      ensures OneFine(raws[n], NormalizeAsset(a).value, NormalizeAsset(b).value) <==> OneFine(raws[n], a, b)
      ensures FitsPair(raws[n], NormalizeAsset(a).value, NormalizeAsset(b).value) <==> FitsPair(raws[n], a, b)
    {
      NormalizedPairIsTheSame(raws[n], a, b);
    }
  }

  lemma PairFineIff(q: Search, i: nat, j: nat)
    requires ValidSearch(q) && i < |q.sources| && j < |q.destinations|
    ensures PairOffers(q, i, j).Ok? <==> PairFine(q, i, j)
  {
    hide SameAsset, SourceAmount, ResolvedAsset, ParseAll, TakenForSame, OneFine, NormalizeAsset, IsNamed, IsResolved, IsXrp;
    hide NamesXrp, IsDecimal, Trim, Normalize, MakeQuote, QuotesOf;
    var source, destination := q.sources[i], q.destinations[j];
    SameAssetIff(source, destination);
    SourceIs(source, q.value);
    ResolvedIff(destination);
    if SameAsset(source, destination) == Ok(false) && SourceAmount(source, q.value).Ok? && ResolvedAsset(destination).Ok?
       && q.reply(i, j).Alternatives? {
      var ks := ReplyReads(q.reply(i, j).raws, source, destination);
    }
  }

  lemma SameAssetDecides(q: Search, i: nat, j: nat)
    requires ValidSearch(q) && i < |q.sources| && j < |q.destinations|
    ensures match SameAsset(q.sources[i], q.destinations[j])
            case Err(e) => PairOffers(q, i, j) == Err(e)
            case Ok(true) => PairOffers(q, i, j) == Ok([])
            case Ok(false) => true
  {
  }

  lemma PlacesCover(q: Search, i: nat, j: nat, ks: seq<nat>, places: seq<Place>)
    requires i < |q.sources| && j < |q.destinations| && q.reply(i, j).Alternatives?
    requires Picks(ks, q.reply(i, j).raws, q.sources[i], q.destinations[j])
    requires places == seq(|ks|, k requires 0 <= k < |ks| => Place(i, j, ks[k]))
    ensures CoversPair(q, places, i, j)
  {
    hide TakenForSame, FitsPair;
    forall p | Offered(q, p) && p.i == i && p.j == j ensures p in places {
      var k :| 0 <= k < |ks| && ks[k] == p.n;
      assert places[k] == p;
    }
  }

  /** What a pair of different assets offers, once nothing fails. */
  lemma PairOffersAre(q: Search, i: nat, j: nat) returns (source: Amount, list: seq<Alternative>, ks: seq<nat>)
    requires ValidSearch(q) && i < |q.sources| && j < |q.destinations| && PairOffers(q, i, j).Ok?
    requires SameAsset(q.sources[i], q.destinations[j]) == Ok(false)
    ensures !TakenForSame(q.sources[i], q.destinations[j]) && q.reply(i, j).Alternatives?
    ensures var raws := q.reply(i, j).raws;
            Picks(ks, raws, q.sources[i], q.destinations[j]) && ReadsThose(raws, ks, list)
    ensures SendsFor(q, i, source)
    ensures forall k :: 0 <= k < |list| ==> MakeQuote(source, list[k], q.slippageBps).Ok?
    ensures PairOffers(q, i, j) == Ok(QuotesOf(source, list, q.slippageBps))
  {
    hide SameAsset, SourceAmount, ResolvedAsset, ParseAll, TakenForSame, NormalizeAsset, IsNamed, IsResolved, IsXrp;
    hide IsDecimal, Trim, Normalize, MakeQuote, OneFine, Picks, ReadsAlternative, WellFormed, QuotesOf, SameLetters, Canonical;
    SameAssetIff(q.sources[i], q.destinations[j]);
    SourceIs(q.sources[i], q.value);
    ResolvedIff(q.destinations[j]);
    source := SourceAmount(q.sources[i], q.value).value;
    var raws, destination := q.reply(i, j).raws, ResolvedAsset(q.destinations[j]).value;
    list := ParseAll(raws, Asset(source.currency, source.issuer), destination).value;
    NormalizedFitsTheSame(q.sources[i], Unreadable);
    ks := ReplyReads(raws, q.sources[i], q.destinations[j]);
    ParseAllWellFormed(raws, Asset(source.currency, source.issuer), destination);
    QuotesExist(source, list, q.slippageBps);
  }

  lemma PairLists(q: Search, i: nat, j: nat) returns (places: seq<Place>)
    requires ValidSearch(q) && i < |q.sources| && j < |q.destinations| && PairOffers(q, i, j).Ok?
    ensures Lists(q, PairOffers(q, i, j).value, places) && CoversPair(q, places, i, j)
  {
    hide SameAsset, TakenForSame, MakeQuote, FitsPair, Lists, PairOffers, Picks, ReadsAlternative, SendsFor;
    SameAssetIff(q.sources[i], q.destinations[j]);
    SameAssetDecides(q, i, j);
    if SameAsset(q.sources[i], q.destinations[j]) == Ok(true) {
      places := [];
      NothingListed(q);
    } else {
      var source, list, ks := PairOffersAre(q, i, j);
      places := seq(|ks|, k requires 0 <= k < |ks| => Place(i, j, ks[k]));
      PlacesCover(q, i, j, ks, places);
      OffersListed(q, i, j, ks, source, list, places);
    }
  }

  lemma NothingListed(q: Search)
    ensures Lists(q, [], [])
  {
  }

  /** The normalised send amount. */
  ghost predicate SendsFor(q: Search, i: nat, source: Amount)
    requires i < |q.sources|
  {
    && SameLetters(source.currency, Trim(q.sources[i].currency))
    && Canonical(source.value) && NumberOf(source.value) == NumberOf(Trim(q.value))
  }

  lemma OneListed(q: Search, p: Place, source: Amount, a: Alternative)
    requires ValidSearch(q) && Offered(q, p) && SendsFor(q, p.i, source)
    requires ReadsAlternative(q.reply(p.i, p.j).raws[p.n], a)
    ensures MakeQuote(source, a, q.slippageBps).Ok? && Quotes(q, p, MakeQuote(source, a, q.slippageBps).value)
  {
    hide Offered, Trim, Canonical, SameLetters, NumberOf, DeliversSafely, MakeQuote, NumberIn;
    QuoteTells(source, a, q.slippageBps);
  }

  lemma OffersListed(q: Search, i: nat, j: nat, ks: seq<nat>, source: Amount, list: seq<Alternative>, places: seq<Place>)
    requires ValidSearch(q) && i < |q.sources| && j < |q.destinations| && SendsFor(q, i, source)
    requires !TakenForSame(q.sources[i], q.destinations[j]) && q.reply(i, j).Alternatives?
    requires var raws := q.reply(i, j).raws;
             Picks(ks, raws, q.sources[i], q.destinations[j]) && ReadsThose(raws, ks, list)
    requires places == seq(|ks|, k requires 0 <= k < |ks| => Place(i, j, ks[k]))
    ensures forall k :: 0 <= k < |list| ==> MakeQuote(source, list[k], q.slippageBps).Ok?
    ensures Lists(q, QuotesOf(source, list, q.slippageBps), places)
  {
    hide TakenForSame, ReadsAlternative, Quotes, MakeQuote, SendsFor, FitsPair;
    forall k | 0 <= k < |ks|
      ensures MakeQuote(source, list[k], q.slippageBps).Ok?
              && Quotes(q, places[k], MakeQuote(source, list[k], q.slippageBps).value)
    {
      OneListed(q, places[k], source, list[k]);
    }
  }

  lemma {:induction false} RowErrorPersists(q: Search, i: nat, m: nat, n: nat)
    requires ValidSearch(q) && i < |q.sources| && m <= n <= |q.destinations|
    requires RowOffers(q, i, m).Err?
    ensures RowOffers(q, i, n) == RowOffers(q, i, m)
  {
    hide PairOffers;
    if m < n {
      RowErrorPersists(q, i, m, n - 1);
    }
  }

  lemma {:induction false} ErrorReachesEnd(q: Search, m: nat, n: nat)
    requires ValidSearch(q) && m <= n <= |q.sources| && OffersBefore(q, m).Err?
    ensures OffersBefore(q, n) == OffersBefore(q, m)
  {
    hide RowOffers;
    if m < n {
      ErrorReachesEnd(q, m, n - 1);
    }
  }

  /** The first error met in the pair loop is the error of the whole search. */
  lemma ErrorDecides(q: Search, i: nat, j: nat)
    requires ValidSearch(q) && i < |q.sources| && j < |q.destinations|
    requires OffersBefore(q, i).Ok? && RowOffers(q, i, j).Ok? && PairOffers(q, i, j).Err?
    ensures AllOffers(q) == Err(PairOffers(q, i, j).error)
  {
    hide PairOffers;
    RowErrorPersists(q, i, j + 1, |q.destinations|);
    ErrorReachesEnd(q, i + 1, |q.sources|);
  }

  lemma RanksCarryOver(source: Amount, list: seq<Alternative>, slippageBps: nat)
    requires slippageBps <= MAX_SLIPPAGE_BPS
    requires forall i :: 0 <= i < |list| ==> MakeQuote(source, list[i], slippageBps).Ok?
    ensures QuoteRanks(QuotesOf(source, list, slippageBps)) == RanksOf(list)
  {
  }

  lemma BestCarriesOver(source: Amount, a: Alternative, list: seq<Alternative>, slippageBps: nat)
    requires slippageBps <= MAX_SLIPPAGE_BPS && WellFormed(a)
    requires forall i :: 0 <= i < |list| ==> MakeQuote(source, list[i], slippageBps).Ok?
    requires BestIn(Some(a), list, RanksOf(list))
    ensures MakeQuote(source, a, slippageBps).Ok?
    ensures var quotes := QuotesOf(source, list, slippageBps);
            BestIn(Some(MakeQuote(source, a, slippageBps).value), quotes, QuoteRanks(quotes))
  {
    hide MakeQuote, Canonical, Trim, QuoteRanks, WellFormed, WithinOneUnit, ValueOf, ScaleOf, Pow10;
    DeliverMinIsSafe(source, a, slippageBps);
    RanksCarryOver(source, list, slippageBps);
    var k: nat :| FirstBest(k, RanksOf(list)) && list[k] == a;
    assert QuotesOf(source, list, slippageBps)[k] == MakeQuote(source, a, slippageBps).value;
  }

  lemma QuoteIsGood(source: Amount, a: Alternative, slippageBps: nat)
    requires WellFormed(a) && slippageBps <= MAX_SLIPPAGE_BPS && MakeQuote(source, a, slippageBps).Ok?
    ensures GoodQuote(MakeQuote(source, a, slippageBps).value)
  {
  }

  /** What the alternative delivers and costs, as the reply writes it. */
  ghost function RankAt(q: Search, p: Place): Rank
    requires Offered(q, p)
  {
    RankIn(q.reply(p.i, p.j).raws[p.n])
  }

  lemma QuoteRankIs(q: Search, p: Place, quote: Quote)
    requires Quotes(q, p, quote)
    ensures RankOf(quote.quotedSourceAmount, quote.destinationAmount) == RankAt(q, p)
  {
  }

  lemma QuotedIsOffered(q: Search, p: Place, quote: Quote)
    requires Quotes(q, p, quote)
    ensures Offered(q, p)
  {
  }

  lemma NotBothEarlier(o: Place, p: Place)
    ensures !(Earlier(o, p) && Earlier(p, o))
  {
  }

  /** The quote of a pair gives the best alternative in its reply. */
  ghost predicate BestOfPair(q: Search, i: nat, j: nat, n: nat, quote: Quote)
    requires i < |q.sources| && j < |q.destinations|
  {
    && Quotes(q, Place(i, j, n), quote)
    && BestInReply(q.reply(i, j).raws, q.sources[i], q.destinations[j], n)
  }

  lemma FirstBestIsBestOfPair(q: Search, i: nat, j: nat, list: seq<Quote>, best: Option<Quote>)
    requires ValidSearch(q) && i < |q.sources| && j < |q.destinations| && PairOffers(q, i, j) == Ok(list)
    requires BestIn(best, list, QuoteRanks(list))
    ensures best.Some? ==> exists n: nat :: BestOfPair(q, i, j, n, best.value)
    ensures best.None? ==> forall n: nat :: !Offered(q, Place(i, j, n))
  {
    hide Quotes, Beats, RankIn, RankOf, PairOffers, FirstBest, FitsPair, TakenForSame;
    var places := PairLists(q, i, j);
    if best.Some? {
      var k := PositionOfBest(best.value, list, QuoteRanks(list));
      var p := places[k];
      PlacedRank(q, p, best.value);
      forall m | 0 <= m < |q.reply(i, j).raws| && m != p.n
                 && FitsPair(q.reply(i, j).raws[m], q.sources[i], q.destinations[j])
        ensures !Beats(RankIn(q.reply(i, j).raws[m]), RankIn(q.reply(i, j).raws[p.n]))
        ensures m < p.n ==> Beats(RankIn(q.reply(i, j).raws[p.n]), RankIn(q.reply(i, j).raws[m]))
      {
        var o := Place(i, j, m);
        assert Offered(q, o);
        var l :| 0 <= l < |places| && places[l] == o;
        PlacedRank(q, o, list[l]);
        Unbeaten(QuoteRanks(list), k, l);
      }
      assert BestOfPair(q, i, j, p.n, best.value);
    }
  }

  lemma PlacedRank(q: Search, p: Place, quote: Quote)
    requires Quotes(q, p, quote)
    ensures Offered(q, p)
    ensures RankOf(quote.quotedSourceAmount, quote.destinationAmount) == RankIn(q.reply(p.i, p.j).raws[p.n])
  {
    QuotedIsOffered(q, p, quote);
    QuoteRankIs(q, p, quote);
  }

  /** `quoteSpecificSwapPath`: the best of one pair's offers. */
  method QuoteSpecificPath(q: Search, i: nat, j: nat) returns (r: Result<Option<Quote>, QuoteError>)
    requires ValidSearch(q) && i < |q.sources| && j < |q.destinations|
    requires SameAsset(q.sources[i], q.destinations[j]) == Ok(false)
    ensures match PairOffers(q, i, j)
            case Err(e) => r == Err(e)
            case Ok(list) =>
              && r.Ok? && BestIn(r.value, list, QuoteRanks(list))
              && (r.value.Some? ==> GoodQuote(r.value.value))
    ensures r.Ok? <==> PairFine(q, i, j)
    ensures r.Ok? && r.value.Some? ==> exists n: nat :: BestOfPair(q, i, j, n, r.value.value)
    ensures r.Ok? && r.value.None? ==> forall n: nat :: !Offered(q, Place(i, j, n))
  {
    hide PairFine, BestOfPair, Offered;
    PairFineIff(q, i, j);
    hide SourceAmount, ResolvedAsset, SameAsset, ParseAll, MakeQuote, Canonical, FirstBest, Trim, QuoteRanks, RanksOf;
    var source := SourceAmount(q.sources[i], q.value);
    if source.Err? { return Err(source.error); }
    var destination := ResolvedAsset(q.destinations[j]);
    if destination.Err? { return Err(destination.error); }
    if !CanSend(q, source.value) { return Err(BadSendAmount); }
    var reply := q.reply(i, j);
    if reply.Refused? { return Err(RequestRefused); }
    if reply.Unusable? { return Err(InvalidResponse); }
    var sourceAsset := Asset(source.value.currency, source.value.issuer);
    var best := PickBestAlternative(reply.raws, sourceAsset, destination.value);
    if best.Err? { return Err(best.error); }
    ParseAllWellFormed(reply.raws, sourceAsset, destination.value);
    ghost var list := ParseAll(reply.raws, sourceAsset, destination.value).value;
    QuotesExist(source.value, list, q.slippageBps);
    if best.value.None? {
      FirstBestIsBestOfPair(q, i, j, PairOffers(q, i, j).value, None);
      return Ok(None);
    }
    var a := best.value.value;
    DeliverMinIsSafe(source.value, a, q.slippageBps);
    BestCarriesOver(source.value, a, list, q.slippageBps);
    var quote := MakeQuote(source.value, a, q.slippageBps);
    QuoteIsGood(source.value, a, q.slippageBps);
    FirstBestIsBestOfPair(q, i, j, PairOffers(q, i, j).value, Some(quote.value));
    return Ok(Some(quote.value));
  }

  /** `pickBetterQuote`. */
  function PickBetterQuote(current: Option<Quote>, candidate: Quote): Quote
  {
    if current.None? then candidate
    else if Compare(candidate.destinationAmount.value, current.value.destinationAmount.value) == Ok(1) then candidate
    else if Compare(candidate.destinationAmount.value, current.value.destinationAmount.value) == Ok(-1) then current.value
    else if Compare(candidate.quotedSourceAmount.value, current.value.quotedSourceAmount.value) == Ok(-1) then candidate
    else current.value
  }

  lemma BetterQuoteJoins(best: Option<Quote>, list: seq<Quote>, candidate: Quote, others: seq<Quote>)
    requires BestIn(best, list, QuoteRanks(list)) && (best.Some? ==> GoodQuote(best.value))
    requires BestIn(Some(candidate), others, QuoteRanks(others)) && GoodQuote(candidate)
    ensures BestIn(Some(PickBetterQuote(best, candidate)), list + others, QuoteRanks(list + others))
  {
    hide Compare, Canonical, IsDecimal, ValueOf, NumberOf;
    var ranks, otherRanks := QuoteRanks(list), QuoteRanks(others);
    assert QuoteRanks(list + others) == ranks + otherRanks;
    var m: nat :| FirstBest(m, otherRanks) && others[m] == candidate;
    RankOfBest(candidate, others, otherRanks, m);
    var rank := Rank(0.0, 0.0);
    if best.Some? {
      var k: nat :| FirstBest(k, ranks) && list[k] == best.value;
      rank := ranks[k];
      RankOfBest(best.value, list, ranks, k);
      CanonicalCompare(candidate.destinationAmount.value, best.value.destinationAmount.value);
      CanonicalCompare(candidate.quotedSourceAmount.value, best.value.quotedSourceAmount.value);
    }
    JoinBest(best, list, ranks, rank, candidate, others, otherRanks, otherRanks[m]);
  }

  lemma PickedIsGood(best: Option<Quote>, candidate: Quote)
    requires (best.Some? ==> GoodQuote(best.value)) && GoodQuote(candidate)
    ensures GoodQuote(PickBetterQuote(best, candidate))
  {
  }

  lemma NothingJoins(best: Option<Quote>, list: seq<Quote>, others: seq<Quote>)
    requires BestIn(best, list, QuoteRanks(list)) && BestIn<Quote>(None, others, QuoteRanks(others))
    ensures BestIn(best, list + others, QuoteRanks(list + others))
  {
    assert list + others == list;
  }

  lemma EmptyBest()
    ensures BestIn<Quote>(None, [], QuoteRanks([]))
  {
  }

  lemma BestMeansNonempty(best: Option<Quote>, list: seq<Quote>)
    requires BestIn(best, list, QuoteRanks(list))
    ensures best.None? <==> list == []
  {
  }

  lemma JoinListed(q: Search, a: seq<Quote>, b: seq<Quote>, here: seq<Place>, there: seq<Place>)
    requires Lists(q, a, here) && Lists(q, b, there)
    requires forall x, y :: x in here && y in there ==> Earlier(x, y)
    ensures Lists(q, a + b, here + there)
  {
    hide Quotes, Earlier;
  }

  lemma {:induction false} RowLists(q: Search, i: nat, m: nat) returns (places: seq<Place>)
    requires ValidSearch(q) && i < |q.sources| && m <= |q.destinations| && RowOffers(q, i, m).Ok?
    ensures Lists(q, RowOffers(q, i, m).value, places) && CoversRow(q, places, i, m)
  {
    hide Lists, PairOffers, Offered;
    if m == 0 {
      places := [];
      NothingListed(q);
    } else {
      var here := RowLists(q, i, m - 1);
      var there := PairLists(q, i, m - 1);
      places := here + there;
      JoinListed(q, RowOffers(q, i, m - 1).value, PairOffers(q, i, m - 1).value, here, there);
    }
  }

  lemma {:induction false} SearchLists(q: Search, n: nat) returns (places: seq<Place>)
    requires ValidSearch(q) && n <= |q.sources| && OffersBefore(q, n).Ok?
    ensures Lists(q, OffersBefore(q, n).value, places) && CoversBefore(q, places, n)
  {
    hide Lists, RowOffers, Offered;
    if n == 0 {
      places := [];
      NothingListed(q);
    } else {
      var here := SearchLists(q, n - 1);
      var there := RowLists(q, n - 1, |q.destinations|);
      places := here + there;
      JoinListed(q, OffersBefore(q, n - 1).value, RowOffers(q, n - 1, |q.destinations|).value, here, there);
      forall p | Offered(q, p) && p.i < n ensures p in places { OfferedInRange(q, p); }
    }
  }

  lemma OfferedInRange(q: Search, p: Place)
    requires Offered(q, p)
    ensures p.i < |q.sources| && p.j < |q.destinations|
  {
  }

  lemma {:induction false} ReplyErrorIsNot(raws: seq<RawAlternative>, source: Asset, destination: Asset)
    ensures ParseAll(raws, source, destination) != Err(NoPathFound)
  {
    hide Trim, Normalize;
    if raws != [] {
      ReplyErrorIsNot(raws[..|raws| - 1], source, destination);
    }
  }

  lemma PairErrorIsNot(q: Search, i: nat, j: nat)
    requires ValidSearch(q) && i < |q.sources| && j < |q.destinations|
    ensures PairOffers(q, i, j) != Err(NoPathFound)
  {
    hide Trim, Normalize, ParseAll, MakeQuote, QuotesOf;
    if q.reply(i, j).Alternatives? {
      var source := SourceAmount(q.sources[i], q.value);
      var destination := ResolvedAsset(q.destinations[j]);
      if source.Ok? && destination.Ok? {
        ReplyErrorIsNot(q.reply(i, j).raws, Asset(source.value.currency, source.value.issuer), destination.value);
      }
    }
  }

  lemma {:induction false} RowFineIff(q: Search, i: nat, m: nat)
    requires ValidSearch(q) && i < |q.sources| && m <= |q.destinations|
    ensures RowOffers(q, i, m).Ok? <==> forall j :: 0 <= j < m ==> PairFine(q, i, j)
    ensures RowOffers(q, i, m).Err? ==> RowOffers(q, i, m).error != NoPathFound
  {
    hide PairOffers, PairFine;
    if m > 0 {
      RowFineIff(q, i, m - 1);
      PairFineIff(q, i, m - 1);
      PairErrorIsNot(q, i, m - 1);
    }
  }

  lemma {:induction false} SearchFineIff(q: Search, n: nat)
    requires ValidSearch(q) && n <= |q.sources|
    ensures OffersBefore(q, n).Ok? <==> forall i, j :: 0 <= i < n && 0 <= j < |q.destinations| ==> PairFine(q, i, j)
    ensures OffersBefore(q, n).Err? ==> OffersBefore(q, n).error != NoPathFound
  {
    hide RowOffers, PairFine;
    if n > 0 {
      SearchFineIff(q, n - 1);
      RowFineIff(q, n - 1, |q.destinations|);
    }
  }

  lemma SearchDecides(q: Search)
    requires ValidSearch(q)
    ensures AllOffers(q).Ok? <==> SearchFine(q)
    ensures AllOffers(q) != Err(NoPathFound)
  {
    hide PairFine, OffersBefore;
    SearchFineIff(q, |q.sources|);
  }

  /** No offered alternative delivers more, or as much for less; and of equals this is the first. */
  ghost predicate BestOffered(q: Search, p: Place, quote: Quote)
  {
    && Quotes(q, p, quote)
    && forall o :: Offered(q, o) && o != p ==>
         !Beats(RankAt(q, o), RankAt(q, p)) && (Earlier(o, p) ==> Beats(RankAt(q, p), RankAt(q, o)))
  }

  /** The first best of all offers is the best one offered. */
  lemma FirstBestIsBestOffered(q: Search, list: seq<Quote>, best: Quote)
    requires ValidSearch(q) && AllOffers(q) == Ok(list) && BestIn(Some(best), list, QuoteRanks(list))
    ensures exists p :: BestOffered(q, p, best)
  {
    hide Quotes, Offered, Beats, RankAt, RankOf, OffersBefore, Earlier, FirstBest;
    var places := SearchLists(q, |q.sources|);
    var k := PositionOfBest(best, list, QuoteRanks(list));
    forall m | 0 <= m < |list| ensures Offered(q, places[m]) && QuoteRanks(list)[m] == RankAt(q, places[m]) {
      QuotedIsOffered(q, places[m], list[m]);
      QuoteRankIs(q, places[m], list[m]);
    }
    var p := places[k];
    forall o | Offered(q, o) && o != p
      ensures !Beats(RankAt(q, o), RankAt(q, p)) && (Earlier(o, p) ==> Beats(RankAt(q, p), RankAt(q, o)))
    {
      OfferedInRange(q, o);
      var m :| 0 <= m < |places| && places[m] == o;
      Unbeaten(QuoteRanks(list), k, m);
      NotBothEarlier(o, p);
      if m > k { assert Earlier(p, o); }
    }
    assert BestOffered(q, p, best);
  }

  lemma EmptyOffersNothing(q: Search)
    requires ValidSearch(q) && AllOffers(q) == Ok([])
    ensures forall p :: !Offered(q, p)
  {
    hide Offered, OffersBefore;
    var places := SearchLists(q, |q.sources|);
    forall p ensures !Offered(q, p) {
      if Offered(q, p) {
        OfferedInRange(q, p);
      }
    }
  }

  /**
   The pair loops of `quoteXrplSwap`: the answer is the first best of all offers of all pairs,
   and there is no answer only when no pair offers anything. The winner is the best alternative that any reply
   offers for two different candidate assets, in that reply's amounts; none is found exactly when none is offered; and
   the search fails otherwise exactly when something about a pair makes it fail.
   */
  method QuoteSwap(q: Search) returns (r: Result<Quote, QuoteError>)
    requires ValidSearch(q)
    ensures match AllOffers(q)
            case Err(e) => r == Err(e)
            case Ok(list) =>
              if list == [] then r == Err(NoPathFound)
              else r.Ok? && BestIn(Some(r.value), list, QuoteRanks(list))
    ensures r.Ok? ==> exists p :: BestOffered(q, p, r.value)
    ensures r == Err(NoPathFound) ==> forall p :: !Offered(q, p)
    ensures r.Ok? || r == Err(NoPathFound) <==> SearchFine(q)
  {
    hide PairFine, Offered, BestOffered, BestOfPair, SearchFine, Quotes, Beats;
    hide PairOffers, PickBetterQuote, SameAsset, BestIn, GoodQuote;
    var best: Option<Quote> := None;
    ghost var list: seq<Quote> := [];
    EmptyBest();
    for i := 0 to |q.sources|
      invariant OffersBefore(q, i) == Ok(list)
      invariant BestIn(best, list, QuoteRanks(list)) && (best.Some? ==> GoodQuote(best.value))
    {
      ghost var before, row := list, [];
      assert before + row == before;
      for j := 0 to |q.destinations|
        invariant RowOffers(q, i, j) == Ok(row) && list == before + row
        invariant BestIn(best, list, QuoteRanks(list)) && (best.Some? ==> GoodQuote(best.value))
      {
        SameAssetDecides(q, i, j);
        var same := SameAsset(q.sources[i], q.destinations[j]);
        if same.Err? {
          ErrorDecides(q, i, j);
          SearchDecides(q);
          return Err(same.error);
        }
        if same.value {
          assert row + [] == row;
          continue;
        }
        var candidate := QuoteSpecificPath(q, i, j);
        if candidate.Err? {
          ErrorDecides(q, i, j);
          SearchDecides(q);
          return Err(candidate.error);
        }
        ghost var offers := PairOffers(q, i, j).value;
        assert before + (row + offers) == list + offers;
        if candidate.value.Some? {
          BetterQuoteJoins(best, list, candidate.value.value, offers);
          PickedIsGood(best, candidate.value.value);
          best := Some(PickBetterQuote(best, candidate.value.value));
        } else {
          NothingJoins(best, list, offers);
        }
        row := row + offers;
        list := before + row;
      }
    }
    BestMeansNonempty(best, list);
    SearchDecides(q);
    if best.None? {
      EmptyOffersNothing(q);
      return Err(NoPathFound);
    }
    FirstBestIsBestOffered(q, list, best.value);
    return Ok(best.value);
  }
}
