/** The `Country` record of risk/country.py: a name, a continent label and an
    army slot that starts empty and is replaced through the `army` setter. */
module CountryRecords {
  import opened Util
  import opened Decimal
  import opened Armies

  /** The soldier count `__str__` shows: the army's, or 0 without one. */
  function ShownSoldiers(army: Option<Army>): int
  {
    if army.Some? then army.value.nSoldiers else 0
  }

  /** `__str__`: `name(n)`. */
  function Render(name: string, army: Option<Army>): (r: string)
    ensures |r| >= |name| + 3
  {
    name + "(" + IntToString(ShownSoldiers(army)) + ")"
  }

  class Country {
    const name: string
    const continent: string
    var army: Option<Army>

    /** `Country(name, continent)`: no army yet. */
    constructor(name: string, continent: string)
      ensures this.name == name && this.continent == continent
      ensures army == None
    {
      this.name := name;
      this.continent := continent;
      army := None;
    }

    /** The `army` getter. */
    function GetArmy(): Option<Army>
      reads this
    {
      army
    }

    /** The `army` setter: the getter returns the value set last. */
    method SetArmy(value: Option<Army>)
      modifies this
      ensures GetArmy() == value
    {
      army := value;
    }

    /** `str(country)`: the name, then the current soldier count in
        parentheses, which parses back to that count. */
    function Str(): (r: string)
      reads this
      ensures r == Render(name, GetArmy())
      ensures |r| >= |name| + 3 && r[..|name|] == name && r[|name|] == '(' && r[|r| - 1] == ')'
      ensures var digits := r[|name| + 1..|r| - 1];
        && ((|digits| > 0 && digits[0] == '-' && AllDigits(digits[1..])) || AllDigits(digits))
        && ParseInt(digits) == ShownSoldiers(GetArmy())
    {
      RenderReadsBack(name, army);
      Render(name, army)
    }

    /** `repr(country)`: the name alone, which is what `str` shows before
        the parenthesis. */
    function Repr(): (r: string)
      reads this
      ensures r == name
      ensures |r| < |Str()| && Str()[..|r|] == r && Str()[|r|] == '('
    {
      name
    }
  }

  /** The rendering reads back: the name, then the soldier count in
      parentheses, which parses to the count shown. */
  lemma RenderReadsBack(name: string, army: Option<Army>)
    ensures var r := Render(name, army);
      && r[..|name|] == name && r[|name|] == '(' && r[|r| - 1] == ')'
      && var digits := r[|name| + 1..|r| - 1];
      && digits == IntToString(ShownSoldiers(army))
      && ((|digits| > 0 && digits[0] == '-' && AllDigits(digits[1..])) || AllDigits(digits))
      && ParseInt(digits) == ShownSoldiers(army)
  {
    var r := Render(name, army);
    var d := IntToString(ShownSoldiers(army));
    assert r == name + "(" + d + ")";
    assert r[|name| + 1..|r| - 1] == d;
    IntRoundTrip(ShownSoldiers(army));
  }

  /** Two renderings of the same name differ exactly when the counts shown
      differ. */
  lemma RenderInjective(name: string, a: Option<Army>, b: Option<Army>)
    ensures Render(name, a) == Render(name, b) <==> ShownSoldiers(a) == ShownSoldiers(b)
  {
    if Render(name, a) == Render(name, b) {
      RenderReadsBack(name, a);
      RenderReadsBack(name, b);
    }
  }
}
