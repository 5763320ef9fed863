/** The nightly pricing engine (utils/pricing.ts): the price of a stay is the sum, over
    every night of the half-open range [check-in, check-out), of the room type's base
    price adjusted by the pricing rules that match that night, applied in input order. */
module Pricing {
  import opened Seqs
  import opened Types

  /** `Date.getDay()` of a day number, 0 = Sunday. Day 0, 1970-01-01, was a Thursday. */
  function Weekday(d: int): (w: int)
    ensures 0 <= w < 7
  {
    (d + 4) % 7
  }

  function FindQuarto(quartos: seq<Quarto>, idQuarto: int): Option<Quarto> {
    Find(quartos, (q: Quarto) => q.idQuarto == idQuarto)
  }

  function FindTipoQuarto(tipos: seq<TipoQuarto>, idTipoQuarto: int): Option<TipoQuarto> {
    Find(tipos, (t: TipoQuarto) => t.idTipoQuarto == idTipoQuarto)
  }

  /** The filter condition: the night lies in the rule's inclusive window, its weekday is
      listed, and the rule is unscoped or scoped to this room type. */
  predicate Applies(rule: RegraPreco, night: int, idTipoQuarto: int) {
    && rule.dataInicio <= night
    && night <= rule.dataFim
    && Weekday(night) in rule.diasSemana
    && (rule.idTipoQuarto.None? || rule.idTipoQuarto.value == idTipoQuarto)
  }

  /** The filter condition of one night, as a function value. */
  function RuleFilter(night: int, idTipoQuarto: int): RegraPreco -> bool {
    (rule: RegraPreco) => Applies(rule, night, idTipoQuarto)
  }

  /** The rules that apply to one night, in input order. */
  function ApplicableRules(regras: seq<RegraPreco>, night: int, idTipoQuarto: int): (r: seq<RegraPreco>)
    ensures SubseqOf(r, regras)
    ensures forall x :: x in r ==> Applies(x, night, idTipoQuarto)
    ensures forall x :: x in regras && Applies(x, night, idTipoQuarto) ==> x in r
    ensures forall x :: x in regras ==> multiset(r)[x] == if Applies(x, night, idTipoQuarto) then multiset(regras)[x] else 0
  {
    FilterMultiplicity(regras, RuleFilter(night, idTipoQuarto));
    Filter(regras, RuleFilter(night, idTipoQuarto))
  }

  /** One adjustment: a percentage rule scales the running price by (1 + v/100), a fixed
      rule adds v. */
  function ApplyRule(price: real, rule: RegraPreco): real {
    match rule.tipoAjuste
    case Percentual => price * (1.0 + rule.valorAjuste / 100.0)
    case Fixo => price + rule.valorAjuste
  }

  /** The rules applied one after another, each to the price the previous ones left. */
  function ApplyRules(price: real, rules: seq<RegraPreco>): real
    decreases |rules|
  {
    if rules == [] then price
    else ApplyRule(ApplyRules(price, rules[..|rules| - 1]), rules[|rules| - 1])
  }

  /** The price of one night. */
  function NightlyPrice(precoBase: real, regras: seq<RegraPreco>, night: int, idTipoQuarto: int): real {
    ApplyRules(precoBase, ApplicableRules(regras, night, idTipoQuarto))
  }

  /** The price of the nights checkin, checkin + 1, …, checkout - 1; nothing when
      checkout is not after checkin. */
  function StayPrice(checkin: int, checkout: int, precoBase: real, regras: seq<RegraPreco>, idTipoQuarto: int): real
    decreases checkout - checkin
  {
    if checkout <= checkin then 0.0
    else StayPrice(checkin, checkout - 1, precoBase, regras, idTipoQuarto)
         + NightlyPrice(precoBase, regras, checkout - 1, idTipoQuarto)
  }

  /** What `calculateReservationPrice` returns: 0 for an unknown room or room type, else
      the stay's price at that room type. */
  function ReservationPrice(
    checkin: int, checkout: int, quartoId: int,
    allQuartos: seq<Quarto>, allTiposQuarto: seq<TipoQuarto>, allRegrasPreco: seq<RegraPreco>): real
  {
    match FindQuarto(allQuartos, quartoId)
    case None => 0.0
    case Some(quarto) =>
      match FindTipoQuarto(allTiposQuarto, quarto.idTipoQuarto)
      case None => 0.0
      case Some(tipo) => StayPrice(checkin, checkout, tipo.precoBase, allRegrasPreco, tipo.idTipoQuarto)
  }

  /** The inner loop of the engine: the night's price, adjusted in place by each
      applicable rule in turn. */
  method AdjustNightlyPrice(precoBase: real, applicableRules: seq<RegraPreco>) returns (dailyPrice: real)
    ensures dailyPrice == ApplyRules(precoBase, applicableRules)
  {
    dailyPrice := precoBase;
    for k := 0 to |applicableRules|
      invariant dailyPrice == ApplyRules(precoBase, applicableRules[..k])
    {
      var rule := applicableRules[k];
      assert applicableRules[..k + 1][..k] == applicableRules[..k];
      if rule.tipoAjuste == Percentual {
        dailyPrice := dailyPrice * (1.0 + rule.valorAjuste / 100.0);
      } else {
        dailyPrice := dailyPrice + rule.valorAjuste;
      }
    }
    assert applicableRules[..|applicableRules|] == applicableRules;
  }

  /** The engine's night loop: walks the nights one day at a time and adds each night's
      adjusted price to the running total. */
  method PriceNights(checkin: int, checkout: int, precoBase: real, regras: seq<RegraPreco>, idTipoQuarto: int)
    returns (totalPrice: real)
    ensures totalPrice == StayPrice(checkin, checkout, precoBase, regras, idTipoQuarto)
  {
    totalPrice := 0.0;
    var currentDate := checkin;
    while currentDate < checkout
      invariant checkin <= currentDate
      invariant currentDate <= checkout || currentDate == checkin
      invariant totalPrice == StayPrice(checkin, currentDate, precoBase, regras, idTipoQuarto)
    {
      var applicableRules := ApplicableRules(regras, currentDate, idTipoQuarto);
      var dailyPrice := AdjustNightlyPrice(precoBase, applicableRules);
      StayPriceStep(checkin, currentDate, precoBase, regras, idTipoQuarto, totalPrice, dailyPrice);
      totalPrice := totalPrice + dailyPrice;
      currentDate := currentDate + 1;
    }
    if checkout < checkin {
      NoNightsCharged(checkin, checkout, precoBase, regras, idTipoQuarto);
    }
  }

  /** The engine: an unknown room or room type is priced 0; otherwise the nights are priced
      at the room type's base price. */
  method CalculateReservationPrice(
    checkin: int, checkout: int, quartoId: int,
    allQuartos: seq<Quarto>, allTiposQuarto: seq<TipoQuarto>, allRegrasPreco: seq<RegraPreco>)
    returns (totalPrice: real)
    ensures totalPrice == ReservationPrice(checkin, checkout, quartoId, allQuartos, allTiposQuarto, allRegrasPreco)
  {
    var quarto := FindQuarto(allQuartos, quartoId);
    if quarto.None? {
      return 0.0;
    }
    var tipoQuarto := FindTipoQuarto(allTiposQuarto, quarto.value.idTipoQuarto);
    if tipoQuarto.None? {
      return 0.0;
    }
    totalPrice := PriceNights(checkin, checkout, tipoQuarto.value.precoBase, allRegrasPreco, tipoQuarto.value.idTipoQuarto);
  }

  /** One more night adds that night's price to the running total. */
  lemma StayPriceStep(checkin: int, night: int, precoBase: real, regras: seq<RegraPreco>, idTipoQuarto: int,
                      total: real, nightly: real)
    requires checkin <= night
    requires total == StayPrice(checkin, night, precoBase, regras, idTipoQuarto)
    requires nightly == ApplyRules(precoBase, ApplicableRules(regras, night, idTipoQuarto))
    ensures total + nightly == StayPrice(checkin, night + 1, precoBase, regras, idTipoQuarto)
  {
  }

  /** A stay whose check-out is not after its check-in costs nothing. */
  lemma NoNightsCharged(checkin: int, checkout: int, precoBase: real, regras: seq<RegraPreco>, idTipoQuarto: int)
    requires checkout <= checkin
    ensures StayPrice(checkin, checkout, precoBase, regras, idTipoQuarto) == 0.0
  {
  }

  // ---------------------------------------------------------------------------
  // Properties of the engine

  /** An unknown room is priced 0, whatever the dates and rules. */
  lemma UnknownRoomIsFree(
    checkin: int, checkout: int, quartoId: int,
    allQuartos: seq<Quarto>, allTiposQuarto: seq<TipoQuarto>, allRegrasPreco: seq<RegraPreco>)
    requires forall i :: 0 <= i < |allQuartos| ==> allQuartos[i].idQuarto != quartoId
    ensures ReservationPrice(checkin, checkout, quartoId, allQuartos, allTiposQuarto, allRegrasPreco) == 0.0
  {
  }

  /** A room whose type is unknown is priced 0. */
  lemma UnknownRoomTypeIsFree(
    checkin: int, checkout: int, quartoId: int,
    allQuartos: seq<Quarto>, allTiposQuarto: seq<TipoQuarto>, allRegrasPreco: seq<RegraPreco>)
    requires FindQuarto(allQuartos, quartoId).Some?
    requires forall i :: 0 <= i < |allTiposQuarto| ==>
      allTiposQuarto[i].idTipoQuarto != FindQuarto(allQuartos, quartoId).value.idTipoQuarto
    ensures ReservationPrice(checkin, checkout, quartoId, allQuartos, allTiposQuarto, allRegrasPreco) == 0.0
  {
  }

  /** When check-out is not after check-in no night is charged. */
  lemma EmptyStayIsFree(
    checkin: int, checkout: int, quartoId: int,
    allQuartos: seq<Quarto>, allTiposQuarto: seq<TipoQuarto>, allRegrasPreco: seq<RegraPreco>)
    requires checkout <= checkin
    ensures ReservationPrice(checkin, checkout, quartoId, allQuartos, allTiposQuarto, allRegrasPreco) == 0.0
  {
  }

  /** A stay splits at any night in between: the total is a sum over single nights. */
  lemma {:induction false} StayPriceSplit(
    checkin: int, middle: int, checkout: int, precoBase: real, regras: seq<RegraPreco>, idTipoQuarto: int)
    requires checkin <= middle <= checkout
    ensures StayPrice(checkin, checkout, precoBase, regras, idTipoQuarto)
         == StayPrice(checkin, middle, precoBase, regras, idTipoQuarto)
          + StayPrice(middle, checkout, precoBase, regras, idTipoQuarto)
    decreases checkout - middle
  {
    if checkout > middle {
      StayPriceSplit(checkin, middle, checkout - 1, precoBase, regras, idTipoQuarto);
    }
  }

  /** The check-in night is charged first; the loop's day-by-day order. */
  lemma StayPriceFirstNight(checkin: int, checkout: int, precoBase: real, regras: seq<RegraPreco>, idTipoQuarto: int)
    requires checkin < checkout
    ensures StayPrice(checkin, checkout, precoBase, regras, idTipoQuarto)
         == NightlyPrice(precoBase, regras, checkin, idTipoQuarto)
          + StayPrice(checkin + 1, checkout, precoBase, regras, idTipoQuarto)
  {
    StayPriceSplit(checkin, checkin + 1, checkout, precoBase, regras, idTipoQuarto);
  }

  /** When every night costs the same `p`, the stay costs nights × p. */
  lemma {:induction false} UniformNights(
    checkin: int, checkout: int, precoBase: real, regras: seq<RegraPreco>, idTipoQuarto: int, p: real)
    requires checkin <= checkout
    requires forall d :: checkin <= d < checkout ==> NightlyPrice(precoBase, regras, d, idTipoQuarto) == p
    ensures StayPrice(checkin, checkout, precoBase, regras, idTipoQuarto) == (checkout - checkin) as real * p
    decreases checkout - checkin
  {
    if checkout > checkin {
      UniformNights(checkin, checkout - 1, precoBase, regras, idTipoQuarto, p);
    }
  }

  /** With no rule applying on any night, the stay costs nights × base price. */
  lemma NoApplicableRules(checkin: int, checkout: int, precoBase: real, regras: seq<RegraPreco>, idTipoQuarto: int)
    requires checkin <= checkout
    requires forall d, i :: checkin <= d < checkout && 0 <= i < |regras| ==> !Applies(regras[i], d, idTipoQuarto)
    ensures StayPrice(checkin, checkout, precoBase, regras, idTipoQuarto) == (checkout - checkin) as real * precoBase
  {
    forall d | checkin <= d < checkout
      ensures NightlyPrice(precoBase, regras, d, idTipoQuarto) == precoBase
    {
      FilterNone(regras, RuleFilter(d, idTipoQuarto));
    }
    UniformNights(checkin, checkout, precoBase, regras, idTipoQuarto, precoBase);
  }

  /** Two rule lists that select the same rules on every night of the stay price it alike. */
  lemma {:induction false} SameRulesSamePrice(
    checkin: int, checkout: int, precoBase: real, regras1: seq<RegraPreco>, regras2: seq<RegraPreco>, idTipoQuarto: int)
    requires forall d :: checkin <= d < checkout ==>
      ApplicableRules(regras1, d, idTipoQuarto) == ApplicableRules(regras2, d, idTipoQuarto)
    ensures StayPrice(checkin, checkout, precoBase, regras1, idTipoQuarto)
         == StayPrice(checkin, checkout, precoBase, regras2, idTipoQuarto)
    decreases checkout - checkin
  {
    if checkout > checkin {
      SameRulesSamePrice(checkin, checkout - 1, precoBase, regras1, regras2, idTipoQuarto);
    }
  }

  /** A rule that matches no night of the stay can be removed from anywhere in the list
      without changing the price. */
  lemma IgnoredRule(
    checkin: int, checkout: int, precoBase: real,
    before: seq<RegraPreco>, rule: RegraPreco, after: seq<RegraPreco>, idTipoQuarto: int)
    requires forall d :: checkin <= d < checkout ==> !Applies(rule, d, idTipoQuarto)
    ensures StayPrice(checkin, checkout, precoBase, before + [rule] + after, idTipoQuarto)
         == StayPrice(checkin, checkout, precoBase, before + after, idTipoQuarto)
  {
    forall d | checkin <= d < checkout
      ensures ApplicableRules(before + [rule] + after, d, idTipoQuarto) == ApplicableRules(before + after, d, idTipoQuarto)
    {
      FilterSkipsRejected(before, rule, after, RuleFilter(d, idTipoQuarto));
    }
    SameRulesSamePrice(checkin, checkout, precoBase, before + [rule] + after, before + after, idTipoQuarto);
  }

  /** The check-out day is not charged: a rule whose window starts on the check-out day
      (or later) does not change the price. */
  lemma CheckoutDayNotCharged(
    checkin: int, checkout: int, precoBase: real,
    before: seq<RegraPreco>, rule: RegraPreco, after: seq<RegraPreco>, idTipoQuarto: int)
    requires rule.dataInicio >= checkout
    ensures StayPrice(checkin, checkout, precoBase, before + [rule] + after, idTipoQuarto)
         == StayPrice(checkin, checkout, precoBase, before + after, idTipoQuarto)
  {
    IgnoredRule(checkin, checkout, precoBase, before, rule, after, idTipoQuarto);
  }

  /** A rule with an empty weekday list never applies. */
  lemma EmptyWeekdaysNeverApply(
    checkin: int, checkout: int, precoBase: real,
    before: seq<RegraPreco>, rule: RegraPreco, after: seq<RegraPreco>, idTipoQuarto: int)
    requires rule.diasSemana == []
    ensures StayPrice(checkin, checkout, precoBase, before + [rule] + after, idTipoQuarto)
         == StayPrice(checkin, checkout, precoBase, before + after, idTipoQuarto)
  {
    IgnoredRule(checkin, checkout, precoBase, before, rule, after, idTipoQuarto);
  }

  /** A rule scoped to another room type does not affect this room's price. */
  lemma OtherRoomTypeRuleIgnored(
    checkin: int, checkout: int, precoBase: real,
    before: seq<RegraPreco>, rule: RegraPreco, after: seq<RegraPreco>, idTipoQuarto: int)
    requires rule.idTipoQuarto.Some? && rule.idTipoQuarto.value != idTipoQuarto
    ensures StayPrice(checkin, checkout, precoBase, before + [rule] + after, idTipoQuarto)
         == StayPrice(checkin, checkout, precoBase, before + after, idTipoQuarto)
  {
    IgnoredRule(checkin, checkout, precoBase, before, rule, after, idTipoQuarto);
  }

  /** Rules compound: applying a list is applying its first part, then the rest to the result. */
  lemma {:induction false} ApplyRulesAppend(price: real, first: seq<RegraPreco>, rest: seq<RegraPreco>)
    ensures ApplyRules(price, first + rest) == ApplyRules(ApplyRules(price, first), rest)
    decreases |rest|
  {
    if rest == [] {
      assert first + rest == first;
    } else {
      var n := |rest| - 1;
      assert (first + rest)[..|first + rest| - 1] == first + rest[..n];
      assert (first + rest)[|first + rest| - 1] == rest[n];
      ApplyRulesAppend(price, first, rest[..n]);
    }
  }

  // ---------------------------------------------------------------------------
  // Worked examples

  /** An unscoped rule valid every day from 1970 to 2069. */
  function Rule(tipo: TipoAjuste, valor: real): RegraPreco {
    RegraPreco(0, "", 0, 36524, [0, 1, 2, 3, 4, 5, 6], tipo, valor, None)
  }

  /** A night on which exactly one rule is listed and it applies costs that rule applied to
      the base price. */
  lemma SingleRuleNight(precoBase: real, rule: RegraPreco, night: int, idTipoQuarto: int)
    requires Applies(rule, night, idTipoQuarto)
    ensures NightlyPrice(precoBase, [rule], night, idTipoQuarto) == ApplyRule(precoBase, rule)
  {
    FilterAll([rule], RuleFilter(night, idTipoQuarto));
    assert ApplicableRules([rule], night, idTipoQuarto) == [rule];
    assert ApplyRules(precoBase, [rule][..0]) == precoBase;
  }

  /** On base 100, +10 fixed then +10 % gives 121; the reverse order gives 120. */
  lemma OrderMatters()
    ensures ApplyRules(100.0, [Rule(Fixo, 10.0), Rule(Percentual, 10.0)]) == 121.0
    ensures ApplyRules(100.0, [Rule(Percentual, 10.0), Rule(Fixo, 10.0)]) == 120.0
  {
    var a, b := Rule(Fixo, 10.0), Rule(Percentual, 10.0);
    assert [a, b][..1] == [a] && [b, a][..1] == [b];
    assert [a][..0] == [] && [b][..0] == [];
  }

  /** The rule set of the sample data: a weekend surcharge of 20 % and a summer surcharge
      of 100 for room type 3 only. */
  const FimDeSemana := RegraPreco(1, "Fim de Semana", 19358, 20453, [5, 6, 0], Percentual, 20.0, None)
  const FeriadoDeVerao := RegraPreco(2, "Feriado de Verão", 20077, 20098, [0, 1, 2, 3, 4, 5, 6], Fixo, 100.0, Some(3))

  /** Friday 2024-01-05 to Sunday 2024-01-07 at base 150 with the weekend rule: two
      weekend nights at 180, total 360; the Sunday check-out day is not charged. */
  lemma WeekendStay()
    ensures StayPrice(19727, 19729, 150.0, [FimDeSemana], 1) == 360.0
  {
    forall d | 19727 <= d < 19729
      ensures NightlyPrice(150.0, [FimDeSemana], d, 1) == 180.0
    {
      assert d == 19727 || d == 19728;
      assert Weekday(d) == 5 || Weekday(d) == 6;
      SingleRuleNight(150.0, FimDeSemana, d, 1);
    }
    UniformNights(19727, 19729, 150.0, [FimDeSemana], 1, 180.0);
  }

  /** A +20 % rule on every night of a three-night stay at 150: 3 × 180 = 540. */
  lemma ThreeNightsWithSurcharge()
    ensures StayPrice(0, 3, 150.0, [Rule(Percentual, 20.0)], 1) == 540.0
  {
    forall d | 0 <= d < 3
      ensures NightlyPrice(150.0, [Rule(Percentual, 20.0)], d, 1) == 180.0
    {
      SingleRuleNight(150.0, Rule(Percentual, 20.0), d, 1);
    }
    UniformNights(0, 3, 150.0, [Rule(Percentual, 20.0)], 1, 180.0);
  }

  /** 2024-12-20 was a Friday inside both windows: a suite (type 3, base 400) pays
      400 × 1.2 + 100 = 580 that night, a standard room (type 1, base 150) only
      150 × 1.2 = 180, since the summer rule is scoped to type 3. */
  lemma SampleRulesOnSummerFriday()
    ensures NightlyPrice(400.0, [FimDeSemana, FeriadoDeVerao], 20077, 3) == 580.0
    ensures NightlyPrice(150.0, [FimDeSemana, FeriadoDeVerao], 20077, 1) == 180.0
  {
    assert Weekday(20077) == 5;
    var both := [FimDeSemana, FeriadoDeVerao];
    assert Applies(FimDeSemana, 20077, 3) && Applies(FeriadoDeVerao, 20077, 3);
    FilterAll(both, RuleFilter(20077, 3));
    assert both[..1] == [FimDeSemana] && [FimDeSemana][..0] == [];
    assert ApplyRules(400.0, [FimDeSemana]) == 480.0;
    assert ApplyRules(400.0, both) == 580.0;

    assert Applies(FimDeSemana, 20077, 1) && !Applies(FeriadoDeVerao, 20077, 1);
    FilterSkipsRejected([FimDeSemana], FeriadoDeVerao, [], RuleFilter(20077, 1));
    assert [FimDeSemana] + [FeriadoDeVerao] + [] == both && [FimDeSemana] + [] == [FimDeSemana];
    SingleRuleNight(150.0, FimDeSemana, 20077, 1);
  }

  /** Nothing clamps the result: a fixed discount larger than the base price makes each
      night, and the stay, negative (two nights at 100 - 150 = -50 each). */
  lemma NegativeTotalPossible()
    ensures ReservationPrice(
      0, 2, 1, [Quarto(1, "101", 1)], [TipoQuarto(1, "Standard", 2, 100.0)], [Rule(Fixo, -150.0)]) == -100.0
  {
    var r := Rule(Fixo, -150.0);
    assert FindQuarto([Quarto(1, "101", 1)], 1) == Some(Quarto(1, "101", 1));
    assert FindTipoQuarto([TipoQuarto(1, "Standard", 2, 100.0)], 1) == Some(TipoQuarto(1, "Standard", 2, 100.0));
    forall d | 0 <= d < 2
      ensures NightlyPrice(100.0, [r], d, 1) == -50.0
    {
      SingleRuleNight(100.0, r, d, 1);
    }
    UniformNights(0, 2, 100.0, [r], 1, -50.0);
  }
}
