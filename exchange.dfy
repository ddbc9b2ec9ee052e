/** The exchange client's reading of its responses: the balance list
    and the public ticker list are searched for the first matching entry,
    and a balance string is cut to a fixed number of fractional digits.
    The HTTP requests themselves are not modelled: their responses (or
    the fact that the request threw) are the inputs. */
module Exchange {
  import opened Wrappers
  import opened Numbers

  /** One entry of the balances response. */
  datatype BalanceEntry = BalanceEntry(currency: string, balance: string)

  /** One entry of the ticker response; its prices already converted
      to numbers. */
  datatype TickerEntry = TickerEntry(market: string, ask: real, bid: real)

  /** Which of a ticker entry's prices is read. */
  datatype PriceSide = Ask | Bid

  /** The index of the first element that matches, as a `for ... of`
      loop with an early return finds it. */
  function FirstMatch<T>(xs: seq<T>, matches: T -> bool): (r: Option<nat>)
    ensures r.None? <==> forall j :: 0 <= j < |xs| ==> !matches(xs[j])
    ensures r.Some? ==> r.value < |xs| && matches(xs[r.value])
    ensures r.Some? ==> forall j :: 0 <= j < r.value ==> !matches(xs[j])
  {
    if xs == [] then None
    else if matches(xs[0]) then Some(0)
    else match FirstMatch(xs[1..], matches)
      case None => None
      case Some(k) => Some(k + 1)
  }

  /** The balance string of the first entry for `currency`; None when
      the currency is not listed. */
  function BalanceOf(response: seq<BalanceEntry>, currency: string): (r: Option<string>)
    ensures r.None? <==> forall i :: 0 <= i < |response| ==> response[i].currency != currency
    ensures r.Some? ==> exists i :: (0 <= i < |response| && response[i].currency == currency
      && response[i].balance == r.value
      && forall j :: 0 <= j < i ==> response[j].currency != currency)
  {
    match FirstMatch(response, (e: BalanceEntry) => e.currency == currency)
    case None => None
    case Some(i) => Some(response[i].balance)
  }

  function PriceField(e: TickerEntry, side: PriceSide): real
  {
    match side
    case Ask => e.ask
    case Bid => e.bid
  }

  /** The requested price of the first ticker entry for `market`; None
      when the market is not listed. */
  function PriceOf(response: seq<TickerEntry>, market: string, side: PriceSide): (r: Option<real>)
    ensures r.None? <==> forall i :: 0 <= i < |response| ==> response[i].market != market
    ensures r.Some? ==> exists i :: (0 <= i < |response| && response[i].market == market
      && PriceField(response[i], side) == r.value
      && forall j :: 0 <= j < i ==> response[j].market != market)
  {
    match FirstMatch(response, (e: TickerEntry) => e.market == market)
    case None => None
    case Some(i) => Some(PriceField(response[i], side))
  }

  predicate IsDot(ch: char)
  {
    ch == '.'
  }

  /** The first two pieces of `s.split(".")`: the text before the first
      point, and the text between it and the next point (or the end).
      None when `s` has no point, so that there is no second piece. */
  function SplitAtDot(s: string): (r: Option<Decimal>)
    ensures r.None? <==> '.' !in s
    ensures r.Some? ==> '.' !in r.value.whole && '.' !in r.value.frac
    ensures r.Some? ==> r.value.Text() <= s
    ensures r.Some? ==> r.value.Text() == s || s[|r.value.Text()|] == '.'
  {
    match FirstMatch(s, IsDot)
    case None => None
    case Some(k) =>
      var rest := s[k + 1..];
      var frac := match FirstMatch(rest, IsDot)
        case None => rest
        case Some(j) => rest[..j];
      assert s == s[..k] + "." + rest;
      Some(Decimal(s[..k], frac))
  }

  /** The balance string cut to `dp` fractional digits: the integer part,
      a point, and the first `dp` characters of the fractional part.
      Characters are dropped, never rounded. None when the balance has no
      point: reading the missing second piece throws. */
  function TruncateBalance(balance: string, dp: nat): (r: Option<Decimal>)
    ensures r.None? <==> '.' !in balance
    ensures r.Some? ==> r.value.Text() <= balance && |r.value.frac| <= dp
    ensures r.Some? ==> '.' !in r.value.whole && '.' !in r.value.frac
  {
    match SplitAtDot(balance)
    case None => None
    case Some(d) =>
      var kept := d.frac[..Min(dp, |d.frac|)];
      assert d.whole + "." + kept <= d.Text();
      Some(Decimal(d.whole, kept))
  }

  /** A balance written `i.f` with no other point is cut to `i`, the
      point and the first min(dp, |f|) characters of `f`. */
  lemma TruncateKeepsPrefix(i: string, f: string, dp: nat)
    requires '.' !in i && '.' !in f
    ensures TruncateBalance(i + "." + f, dp) == Some(Decimal(i, f[..Min(dp, |f|)]))
  {
    var s := i + "." + f;
    assert forall j :: 0 <= j < |i| ==> s[j] == i[j];
    assert s[|i|] == '.';
    var k := FirstMatch(s, IsDot);
    assert k == Some(|i|);
    assert s[|i| + 1..] == f;
    assert FirstMatch(f, IsDot).None?;
    assert s[..|i|] == i;
    assert SplitAtDot(s) == Some(Decimal(i, f));
    assert f[..Min(dp, |f|)] == Decimal(i, f).frac[..Min(dp, |Decimal(i, f).frac|)];
  }

  /** Truncating a balance of digits never increases its value and loses
      less than one unit in the dp-th fractional place. */
  lemma TruncationNeverRoundsUp(i: string, f: string, dp: nat)
    requires AllDigits(i) && AllDigits(f) && i != []
    ensures TruncateBalance(i + "." + f, dp).Some?
    ensures ToNumber(TruncateBalance(i + "." + f, dp).value).Some?
    ensures ToNumber(Decimal(i, f)).Some?
    ensures ToNumber(TruncateBalance(i + "." + f, dp).value).value <= ToNumber(Decimal(i, f)).value
    ensures ToNumber(Decimal(i, f)).value - ToNumber(TruncateBalance(i + "." + f, dp).value).value
      < 1.0 / Pow10(dp)
  {
    var m := Min(dp, |f|);
    TruncateKeepsPrefix(i, f, dp);
    assert AllDigits(f[..m]);
    FracPrefixGap(f, m);
    if m < dp {
      assert f[..m] == f;
    }
  }

  /** A balance of 123.456789 kept to two decimals is 123.45: the digits
      are dropped, not rounded. */
  lemma TruncationExample()
    ensures TruncateBalance("123" + "." + "456789", 2) == Some(Decimal("123", "45"))
  {
    TruncateKeepsPrefix("123", "456789", 2);
    assert "456789"[..Min(2, 6)] == "45";
  }

  /** `GetQuantity(dp, currency)`: the balances response (or the throw of
      its request), searched for `currency`; `undefined` (None) when the
      currency is absent; the truncated balance converted by unary `+`
      otherwise. It throws when the request throws or the balance has no
      point. A quantity it returns is never negative. */
  function GetQuantity(reply: Outcome<seq<BalanceEntry>>, currency: string, dp: nat): (r: Outcome<Option<real>>)
    ensures reply.Threw? ==> r.Threw?
    ensures reply.Returned? && BalanceOf(reply.value, currency).None? ==> r == Returned(None)
    ensures reply.Returned? && BalanceOf(reply.value, currency).Some? ==>
      (r.Threw? <==> '.' !in BalanceOf(reply.value, currency).value)
    ensures r.Returned? && BalanceOf(reply.value, currency).Some? ==>
      r.value == ToNumber(TruncateBalance(BalanceOf(reply.value, currency).value, dp).value)
    ensures r.Returned? && r.value.Some? ==> 0.0 <= r.value.value
  {
    match reply
    case Threw => Threw
    case Returned(response) =>
      match BalanceOf(response, currency)
      case None => Returned(None)
      case Some(balance) =>
        match TruncateBalance(balance, dp)
        case None => Threw
        case Some(d) => Returned(ToNumber(d))
  }

  /** `GetCurrentPrice(side, market)`: the ticker response (or the throw
      of its request or of parsing it), searched for `market`. */
  function GetCurrentPrice(reply: Outcome<seq<TickerEntry>>, market: string, side: PriceSide): (r: Outcome<Option<real>>)
    ensures r.Threw? <==> reply.Threw?
    ensures r.Returned? ==> r.value == PriceOf(reply.value, market, side)
    ensures r.Returned? ==>
      (r.value.Some? <==> exists i :: 0 <= i < |reply.value| && reply.value[i].market == market)
  {
    match reply
    case Threw => Threw
    case Returned(response) => Returned(PriceOf(response, market, side))
  }

  /** A listed balance of digits `i.f` is read as its value cut to `dp`
      fractional digits: never above the balance and less than one unit
      in the dp-th place below it. */
  lemma GetQuantityTruncates(response: seq<BalanceEntry>, currency: string, dp: nat, i: string, f: string)
    requires BalanceOf(response, currency) == Some(i + "." + f)
    requires AllDigits(i) && AllDigits(f) && i != []
    ensures GetQuantity(Returned(response), currency, dp).Returned?
    ensures GetQuantity(Returned(response), currency, dp).value.Some?
    ensures GetQuantity(Returned(response), currency, dp).value.value <= ToNumber(Decimal(i, f)).value
    ensures ToNumber(Decimal(i, f)).value - GetQuantity(Returned(response), currency, dp).value.value
      < 1.0 / Pow10(dp)
  {
    TruncationNeverRoundsUp(i, f, dp);
  }

  /** A balance of 123.456789 read at two decimals is the number 123.45. */
  lemma GetQuantityExample(currency: string)
    ensures GetQuantity(Returned([BalanceEntry(currency, "123.456789")]), currency, 2) == Returned(Some(123.45))
  {
    var response := [BalanceEntry(currency, "123.456789")];
    assert "123.456789" == "123" + "." + "456789";
    assert BalanceOf(response, currency) == Some("123" + "." + "456789");
    TruncationExample();
    DecimalValueExample();
  }
}
