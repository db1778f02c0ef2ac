/** The paginators' request codec: reading the prefixed `page` and `pk`
    parameters out of the GET parameters, and the parameter map a page link
    carries. GET parameters are a map from names to string values; the final
    application/x-www-form-urlencoded rendering is not modelled. */
module RequestCodec {
  import opened Outcomes
  import opened Decimal

  type Params = map<string, string>

  /** `params.get(name)`: None when the parameter is absent. */
  function Lookup(params: Params, name: string): Option<string>
  {
    if name in params then Some(params[name]) else None
  }

  /** `to_int(input, default, regexp=None)` (digitSearch false) and
      `to_int(input, default, regexp=True)` (digitSearch true). An absent
      input is None, for which `int()` raises TypeError and the default is
      returned. With digitSearch the first run of digits replaces the input
      when there is one. */
  function ToInt(input: Option<string>, default: int, digitSearch: bool): int
  {
    match input
    case None => default
    case Some(s) =>
      var text := if digitSearch && FirstDigitRun(s).Some? then FirstDigitRun(s).value else s;
      match ParseInt(text)
      case Some(v) => v
      case None => default
  }

  /** Python truth of an optional anchor: None and 0 are false. */
  predicate Truthy(pk: Option<int>) { pk.Some? && pk.value != 0 }

  function PageVar(prefix: string): string { prefix + "page" }

  function PkVar(prefix: string): string { prefix + "pk" }

  /** Whatever the prefix, the two parameter names never collide. */
  lemma VarsDiffer(prefix: string)
    ensures PageVar(prefix) != PkVar(prefix)
  {
    assert PageVar(prefix)[|prefix| + 1] == 'a';
    assert PkVar(prefix)[|prefix| + 1] == 'k';
  }

  /** A missing parameter, or one without a single digit in it, gives the default. */
  lemma ToIntFallsBack(input: Option<string>, default: int, digitSearch: bool)
    requires input.Some? ==> forall i :: 0 <= i < |input.value| ==> !IsDigit(input.value[i])
    ensures ToInt(input, default, digitSearch) == default
  {
    if input.Some? {
      var k := FirstDigitRunIsLeftmost(input.value);
      NoDigitNoInt(input.value);
    }
  }

  /** Any decimal integer passes through unchanged, including "0" and
      negative numbers: nothing clamps the page to 1 or more. */
  lemma ToIntDecimal(i: int, default: int)
    ensures ToInt(Some(IntToString(i)), default, false) == i
  {
    ParseIntToString(i);
  }

  /** With `regexp=True` the value is the first run of digits in the input,
      whatever surrounds it. */
  lemma ToIntDigitSearch(s: string, default: int) returns (k: nat)
    requires exists i :: 0 <= i < |s| && IsDigit(s[i])
    ensures k < |s|
    ensures var r := LeadingDigits(s[k..]);
      k + |r| <= |s| && |r| > 0 && AllDigits(r) &&
      (forall i :: 0 <= i < k ==> !IsDigit(s[i])) &&
      ToInt(Some(s), default, true) == DigitsValue(r)
  {
    k := FirstDigitRunIsLeftmost(s);
    var r := FirstDigitRun(s).value;
    StripDigits(r);
    assert s[k] == r[0];
    FirstRunIsLeadingDigits(s, k);
  }

  lemma {:induction false} FirstRunIsLeadingDigits(s: string, k: nat)
    requires k < |s| && IsDigit(s[k]) && (forall i :: 0 <= i < k ==> !IsDigit(s[i]))
    ensures FirstDigitRun(s) == Some(LeadingDigits(s[k..]))
  {
    if k > 0 {
      assert !IsDigit(s[0]);
      assert s[1..][k - 1..] == s[k..];
      forall i | 0 <= i < k - 1 ensures !IsDigit(s[1..][i]) {
        assert s[1..][i] == s[i + 1];
      }
      FirstRunIsLeadingDigits(s[1..], k - 1);
    } else {
      assert s[0..] == s;
    }
  }

  /** The parameter map of `get_link(page, pk)` (the first class works on a
      copy of the request's parameters, the later one updates its own): the
      page parameter is set, the pk parameter is set when pk is true and the
      page is not 1 and removed otherwise, and every other parameter stays. */
  function Link(params: Params, pageVar: string, pkVar: string, page: int, pk: Option<int>): (q: Params)
    requires pageVar != pkVar
    ensures pageVar in q && q[pageVar] == IntToString(page)
    ensures pkVar in q <==> Truthy(pk) && page != 1
    ensures pkVar in q ==> q[pkVar] == IntToString(pk.value)
    ensures forall k :: k != pageVar && k != pkVar ==> (k in q <==> k in params)
    ensures forall k :: k != pageVar && k != pkVar && k in params ==> q[k] == params[k]
  {
    var withPk := if Truthy(pk) && page != 1 then params[pkVar := IntToString(pk.value)] else params - {pkVar};
    withPk[pageVar := IntToString(page)]
  }

  /** A link reads back, through the first paginator's codec, as the page
      it was built for and its anchor (0 where the anchor was dropped). */
  lemma LinkRoundTrip(params: Params, prefix: string, page: int, pk: Option<int>)
    ensures PageVar(prefix) != PkVar(prefix)
    ensures var q := Link(params, PageVar(prefix), PkVar(prefix), page, pk);
      ToInt(Lookup(q, PageVar(prefix)), 1, false) == page &&
      ToInt(Lookup(q, PkVar(prefix)), 0, false) == (if Truthy(pk) && page != 1 then pk.value else 0)
  {
    VarsDiffer(prefix);
    var q := Link(params, PageVar(prefix), PkVar(prefix), page, pk);
    ToIntDecimal(page, 1);
    if Truthy(pk) && page != 1 {
      ToIntDecimal(pk.value, 0);
    }
  }

  /** `int(params.get(pk_var, 0))` of the later paginator: no default for a
      malformed value, which raises ValueError. */
  function StrictPk(params: Params, pkVar: string): (r: Result<int>)
    ensures pkVar !in params ==> r == Ok(0)
    ensures pkVar in params ==> (r.Ok? <==> ParseInt(params[pkVar]).Some?)
  {
    if pkVar !in params then Ok(0)
    else match ParseInt(params[pkVar])
      case Some(v) => Ok(v)
      case None => Err(ValueError)
  }

  /** The later paginator's page: `to_int` with default 0, and a false
      result (missing, malformed or "0") becomes page 1. */
  function LaterPage(params: Params, pageVar: string): (page: int)
    ensures page != 0
    ensures pageVar !in params ==> page == 1
  {
    var p := ToInt(Lookup(params, pageVar), 0, false);
    if p == 0 then 1 else p
  }

  /** A link reads back through the later paginator's codec as its page
      (page 0 reads back as 1) and its anchor. */
  lemma LaterLinkRoundTrip(params: Params, prefix: string, page: int, pk: Option<int>)
    ensures PageVar(prefix) != PkVar(prefix)
    ensures var q := Link(params, PageVar(prefix), PkVar(prefix), page, pk);
      LaterPage(q, PageVar(prefix)) == (if page == 0 then 1 else page) &&
      StrictPk(q, PkVar(prefix)) == Ok(if Truthy(pk) && page != 1 then pk.value else 0)
  {
    VarsDiffer(prefix);
    ToIntDecimal(page, 0);
    if Truthy(pk) && page != 1 {
      ParseIntToString(pk.value);
    }
  }
}
