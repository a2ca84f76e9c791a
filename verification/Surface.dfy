/** The two-dimensional wavelength polynomial and the change of its degree. */
module Surface {
  import opened Numeric

  /** Powers of the pixel and of the order coordinate. */
  type Power = (nat, nat)

  function PowerRow(degree: nat, q: nat): (r: seq<Power>)
    requires q <= degree
    ensures |r| == degree + 1 - q && forall p :: 0 <= p < |r| ==> r[p] == (p, q)
  {
    seq(degree + 1 - q, p requires 0 <= p < degree + 1 - q => (p, q))
  }

  /** The rows q .. degree. */
  function PowerRows(degree: nat, q: nat): seq<Power>
    requires q <= degree + 1
    decreases degree + 1 - q
  {
    if q > degree then [] else PowerRow(degree, q) + PowerRows(degree, q + 1)
  }

  function Powers(degree: nat): seq<Power> { PowerRows(degree, 0) }

  function Monomial(x: real, y: real, power: Power): real { Pow(x, power.0) * Pow(y, power.1) }

  function Features(x: real, y: real, degree: nat): seq<real> {
    seq(|Powers(degree)|, i requires 0 <= i < |Powers(degree)| => Monomial(x, y, Powers(degree)[i]))
  }

  /** Scalar product of two lists of the same length. */
  function Dot(a: seq<real>, b: seq<real>): real
    requires |a| == |b|
  {
    if a == [] then 0.0 else a[0] * b[0] + Dot(a[1..], b[1..])
  }

  /** The table of coefficients by power; a later entry replaces an earlier one. */
  function Table(powers: seq<Power>, coefficients: seq<real>): map<Power, real>
    requires |powers| == |coefficients|
  {
    if powers == [] then map[]
    else
      var n := |powers| - 1;
      Table(powers[..n], coefficients[..n])[powers[n] := coefficients[n]]
  }

  function Get(table: map<Power, real>, power: Power): real { if power in table then table[power] else 0.0 }

  function Lookup(table: map<Power, real>, powers: seq<Power>): seq<real> {
    seq(|powers|, i requires 0 <= i < |powers| => Get(table, powers[i]))
  }

  /** Fails unless there is one coefficient for every power of the old degree. */
  function ExpandCoefficients(coefficients: seq<real>, oldDegree: nat, newDegree: nat): (r: Result<seq<real>>)
    ensures r.Success? <==> |coefficients| == |Powers(oldDegree)|
    ensures r.Success? ==> |r.value| == |Powers(newDegree)|
  {
    if |coefficients| != |Powers(oldDegree)| then Failure("zip() argument lengths differ")
    else Success(Lookup(Table(Powers(oldDegree), coefficients), Powers(newDegree)))
  }

  // ------------------------------------------------------------------- enumeration

  /** There are (d + 1)(d + 2) / 2 features of degree d. */
  lemma {:induction false} PowerRowsCount(degree: nat, q: nat)
    requires q <= degree + 1
    ensures 2 * |PowerRows(degree, q)| == (degree + 1 - q) * (degree + 2 - q)
    decreases degree + 1 - q
  {
    if q <= degree {
      PowerRowsCount(degree, q + 1);
      var n := degree + 1 - q;
      assert (n - 1) * n + 2 * n == n * (n + 1);
    }
  }

  lemma {:induction false} FeatureCount(degree: nat)
    ensures |Powers(degree)| == (degree + 1) * (degree + 2) / 2
  {
    PowerRowsCount(degree, 0);
  }

  ghost predicate Listed(degree: nat, q: nat, power: Power) { q <= power.1 && power.0 + power.1 <= degree }

  /** The enumeration lists every power of total degree at most d, and nothing else. */
  lemma {:induction false} PowerRowsMembers(degree: nat, q: nat, power: Power)
    requires q <= degree + 1
    ensures power in PowerRows(degree, q) <==> Listed(degree, q, power)
    decreases degree + 1 - q
  {
    if q <= degree {
      PowerRowsMembers(degree, q + 1, power);
      if power.1 == q && power.0 + q <= degree {
        assert PowerRow(degree, q)[power.0] == power;
      }
    }
  }

  lemma {:induction false} PowerRowsDistinct(degree: nat, q: nat)
    requires q <= degree + 1
    ensures Distinct(PowerRows(degree, q))
    decreases degree + 1 - q
  {
    if q <= degree {
      PowerRowsDistinct(degree, q + 1);
      var first, rest := PowerRow(degree, q), PowerRows(degree, q + 1);
      forall j | 0 <= j < |rest|
        ensures rest[j].1 > q
      {
        PowerRowsMembers(degree, q + 1, rest[j]);
      }
      assert forall i :: 0 <= i < |first| ==> first[i].1 == q;
    }
  }

  /** Where the power (p, q) is listed: after the rows 0 .. q - 1. */
  function Position(degree: nat, p: nat, q: nat): int { Offsets(q, 2 * degree + 3 - q) / 2 + p }

  lemma {:induction false} RowsBefore(degree: nat, from: nat, q: nat, p: nat, offset: int)
    requires from <= q && p + q <= degree && 2 * offset == Offsets(q - from, 2 * degree + 3 - from - q)
    ensures 0 <= offset + p < |PowerRows(degree, from)| && PowerRows(degree, from)[offset + p] == (p, q)
    decreases q - from
  {
    if from < q {
      OneRowLess(q - from, 2 * degree + 3 - from - q, degree + 1 - from);
      RowsBefore(degree, from + 1, q, p, offset - (degree + 1 - from));
    }
  }

  function Offsets(a: int, b: int): int { a * b }

  lemma {:induction false} OneRowLess(a: int, b: int, row: int)
    requires a + b == 2 * row + 1
    ensures Offsets(a - 1, b - 1) == Offsets(a, b) - 2 * row
  {}

  lemma {:induction false} EvenOffset(degree: nat, q: nat, h: int)
    requires 2 * h == q || 2 * h == 2 * degree + 3 - q
    ensures 2 * (Offsets(q, 2 * degree + 3 - q) / 2) == Offsets(q, 2 * degree + 3 - q)
  {
    if 2 * h == q {
      TwiceHalf(h * (2 * degree + 3 - q), Offsets(q, 2 * degree + 3 - q));
    } else {
      TwiceHalf(h * q, Offsets(q, 2 * degree + 3 - q));
    }
  }

  lemma {:induction false} TwiceHalf(h: int, n: int)
    requires n == 2 * h
    ensures 2 * (n / 2) == n
  {}

  /** Feature q (2 d + 3 - q) / 2 + p is the p-th power of the pixel times the q-th power of the order coordinate. */
  lemma {:induction false} FeatureIs(x: real, y: real, degree: nat, p: nat, q: nat)
    requires p + q <= degree
    ensures 0 <= Position(degree, p, q) < |Features(x, y, degree)|
    ensures Features(x, y, degree)[Position(degree, p, q)] == Pow(x, p) * Pow(y, q)
  {
    EvenOffset(degree, q, if q % 2 == 0 then q / 2 else (2 * degree + 3 - q) / 2);
    RowsBefore(degree, 0, q, p, Offsets(q, 2 * degree + 3 - q) / 2);
  }

  // ------------------------------------------------------------------------- lookup

  lemma {:induction false} TableLookup(powers: seq<Power>, coefficients: seq<real>, i: nat)
    requires |powers| == |coefficients| && Distinct(powers) && i < |powers|
    ensures Get(Table(powers, coefficients), powers[i]) == coefficients[i]
  {
    var n := |powers| - 1;
    if i < n {
      TableLookup(powers[..n], coefficients[..n], i);
      TableKeys(powers[..n], coefficients[..n], powers[i]);
      assert powers[i] != powers[n];
    }
  }

  lemma {:induction false} TableKeys(powers: seq<Power>, coefficients: seq<real>, power: Power)
    requires |powers| == |coefficients|
    ensures power in Table(powers, coefficients) <==> power in powers
  {
    if powers != [] {
      var n := |powers| - 1;
      TableKeys(powers[..n], coefficients[..n], power);
      assert powers == powers[..n] + [powers[n]];
    }
  }

  // --------------------------------------------------------------------- evaluation

  /** The polynomial of a table, over a list of powers. */
  ghost function Polynomial(table: map<Power, real>, powers: seq<Power>, x: real, y: real): real {
    if powers == [] then 0.0
    else Monomial(x, y, powers[0]) * Get(table, powers[0]) + Polynomial(table, powers[1..], x, y)
  }

  lemma {:induction false} PolynomialSplit(table: map<Power, real>, a: seq<Power>, b: seq<Power>, x: real, y: real)
    ensures Polynomial(table, a + b, x, y) == Polynomial(table, a, x, y) + Polynomial(table, b, x, y)
  {
    if a == [] {
      assert a + b == b;
    } else {
      PolynomialSplit(table, a[1..], b, x, y);
      assert (a + b)[1..] == a[1..] + b;
    }
  }

  lemma {:induction false} PolynomialZero(table: map<Power, real>, powers: seq<Power>, x: real, y: real)
    requires forall i :: 0 <= i < |powers| ==> Get(table, powers[i]) == 0.0
    ensures Polynomial(table, powers, x, y) == 0.0
  {
    if powers != [] {
      PolynomialZero(table, powers[1..], x, y);
    }
  }

  lemma {:induction false} DotIsPolynomial(features: seq<real>, coefficients: seq<real>, table: map<Power, real>,
                                           powers: seq<Power>, x: real, y: real)
    requires |features| == |coefficients| == |powers|
    requires forall i :: 0 <= i < |powers| ==> features[i] == Monomial(x, y, powers[i])
    requires forall i :: 0 <= i < |powers| ==> coefficients[i] == Get(table, powers[i])
    ensures Dot(features, coefficients) == Polynomial(table, powers, x, y)
  {
    if powers != [] {
      DotIsPolynomial(features[1..], coefficients[1..], table, powers[1..], x, y);
    }
  }

  /** Rows of a higher degree hold the rows of the lower one and powers that are not in the table. */
  lemma {:induction false} SameRows(table: map<Power, real>, oldDegree: nat, newDegree: nat, q: nat, x: real, y: real)
    requires oldDegree <= newDegree && q <= newDegree + 1
    requires forall power :: power in table ==> power.0 + power.1 <= oldDegree
    ensures Polynomial(table, PowerRows(newDegree, q), x, y)
         == if q <= oldDegree + 1 then Polynomial(table, PowerRows(oldDegree, q), x, y) else 0.0
    decreases newDegree + 1 - q
  {
    if q <= newDegree {
      SameRows(table, oldDegree, newDegree, q + 1, x, y);
      var wide := PowerRow(newDegree, q);
      PolynomialSplit(table, wide, PowerRows(newDegree, q + 1), x, y);
      if q <= oldDegree {
        var narrow := PowerRow(oldDegree, q);
        PolynomialSplit(table, narrow, PowerRows(oldDegree, q + 1), x, y);
        assert wide == narrow + wide[|narrow|..];
        PolynomialSplit(table, narrow, wide[|narrow|..], x, y);
        PolynomialZero(table, wide[|narrow|..], x, y);
      } else {
        PolynomialZero(table, wide, x, y);
      }
    }
  }

  /** Raising the degree keeps the polynomial at every pixel and order, although the powers are listed in another
      sequence. */
  lemma {:induction false} ExpansionKeepsPolynomial(coefficients: seq<real>, oldDegree: nat, newDegree: nat, x: real, y: real)
    requires oldDegree <= newDegree && |coefficients| == |Powers(oldDegree)|
    ensures Dot(Features(x, y, newDegree), ExpandCoefficients(coefficients, oldDegree, newDegree).value)
         == Dot(Features(x, y, oldDegree), coefficients)
  {
    var powers := Powers(oldDegree);
    var table := Table(powers, coefficients);
    PowerRowsDistinct(oldDegree, 0);
    forall i | 0 <= i < |powers|
      ensures coefficients[i] == Get(table, powers[i])
    {
      TableLookup(powers, coefficients, i);
    }
    forall power | power in table
      ensures power.0 + power.1 <= oldDegree
    {
      TableKeys(powers, coefficients, power);
      PowerRowsMembers(oldDegree, 0, power);
    }
    DotIsPolynomial(Features(x, y, oldDegree), coefficients, table, powers, x, y);
    DotIsPolynomial(Features(x, y, newDegree), Lookup(table, Powers(newDegree)), table, Powers(newDegree), x, y);
    SameRows(table, oldDegree, newDegree, 0, x, y);
  }
}
