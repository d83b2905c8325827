/** Day 15 (day-15/src/main.rs): the cookie recipe. A recipe gives every
    ingredient a number of teaspoons; each property of the cookie is the
    teaspoon-weighted total of that property, clamped at zero, and the score
    is the product of the four non-calorie properties. The best recipes are
    found by trying every split of 100 teaspoons over four ingredients. */
module Day15 {
  import opened Wrappers
  import opened Arith

  datatype Ingredient = Ingredient(capacity: int, durability: int, flavor: int, texture: int, calories: int)

  /** The getter closures passed to `get_sum`. */
  datatype Property = Capacity | Durability | Flavor | Texture | Calories

  function Of(i: Ingredient, p: Property): int
  {
    match p
    case Capacity => i.capacity
    case Durability => i.durability
    case Flavor => i.flavor
    case Texture => i.texture
    case Calories => i.calories
  }

  const Sprinkles := Ingredient(5, -1, 0, 0, 5)
  const PeanutButter := Ingredient(-1, 3, 0, 0, 1)
  const Frosting := Ingredient(0, -1, 4, 0, 6)
  const Sugar := Ingredient(-1, 0, 0, 2, 8)
  const Butterscotch := Ingredient(-1, -2, 6, 3, 8)
  const Cinnamon := Ingredient(2, 3, -2, -1, 3)

  /** A recipe: how many teaspoons of which ingredient. */
  type Recipe = seq<(int, Ingredient)>

  function Terms(recipe: Recipe, p: Property): (t: seq<int>)
    ensures |t| == |recipe|
  {
    seq(|recipe|, k requires 0 <= k < |recipe| => recipe[k].0 * Of(recipe[k].1, p))
  }

  /** The unclamped total: `factor * f(ingredient)` folded from the left. */
  function Total(recipe: Recipe, p: Property): int
  {
    FoldSum(Terms(recipe, p), 0)
  }

  /** The total does not depend on how the recipe is cut in two: it is the
      sum of the totals of the parts. */
  lemma TotalAppend(a: Recipe, b: Recipe, p: Property)
    ensures Total(a + b, p) == Total(a, p) + Total(b, p)
  {
    assert Terms(a + b, p) == Terms(a, p) + Terms(b, p);
    FoldIsSum(Terms(a + b, p), 0);
    FoldIsSum(Terms(a, p), 0);
    FoldIsSum(Terms(b, p), 0);
    SumAppend(Terms(a, p), Terms(b, p));
  }

  lemma TotalOne(factor: int, i: Ingredient, p: Property)
    ensures Total([(factor, i)], p) == factor * Of(i, p)
  {
    assert Terms([(factor, i)], p) == [factor * Of(i, p)];
    assert FoldSum([factor * Of(i, p)], 0) == FoldSum([], factor * Of(i, p));
  }

  /** `get_sum`: the total, or zero when it is negative. */
  function ClampedSum(recipe: Recipe, p: Property): (r: nat)
    ensures Total(recipe, p) >= 0 ==> r == Total(recipe, p)
    ensures Total(recipe, p) <= 0 ==> r == 0
  {
    Max(0, Total(recipe, p))
  }

  /** `get_score`: the product of the four clamped non-calorie sums. */
  function Score(recipe: Recipe): nat
  {
    ClampedSum(recipe, Capacity) * ClampedSum(recipe, Durability) *
    ClampedSum(recipe, Flavor) * ClampedSum(recipe, Texture)
  }

  /** The score is zero exactly when some non-calorie property totals zero
      or less, and otherwise the product of the four totals. */
  lemma ScoreMeaning(recipe: Recipe)
    ensures Score(recipe) == 0 <==>
      (Total(recipe, Capacity) <= 0 || Total(recipe, Durability) <= 0 ||
       Total(recipe, Flavor) <= 0 || Total(recipe, Texture) <= 0)
    ensures Score(recipe) > 0 ==>
      Score(recipe) == Total(recipe, Capacity) * Total(recipe, Durability) * Total(recipe, Flavor) * Total(recipe, Texture)
  {
    ProductZero(ClampedSum(recipe, Capacity), ClampedSum(recipe, Durability),
                ClampedSum(recipe, Flavor), ClampedSum(recipe, Texture));
  }

  lemma ProductZero(a: nat, b: nat, c: nat, d: nat)
    ensures a * b * c * d == 0 <==> (a == 0 || b == 0 || c == 0 || d == 0)
  {
    if a > 0 && b > 0 && c > 0 && d > 0 {
      assert a * b > 0;
      assert a * b * c > 0;
    }
  }

  /** `get_calories`: the clamped calorie total. */
  function CaloriesOf(recipe: Recipe): (r: nat)
    ensures Total(recipe, Calories) >= 0 ==> r == Total(recipe, Calories)
    ensures Total(recipe, Calories) <= 0 ==> r == 0
  {
    ClampedSum(recipe, Calories)
  }

  /** The four-ingredient recipe the searches try. */
  function Mixture(sprinkles: int, peanutButter: int, frosting: int, sugar: int): Recipe
  {
    [(sprinkles, Sprinkles), (peanutButter, PeanutButter), (frosting, Frosting), (sugar, Sugar)]
  }

  /** A split of 100 teaspoons: sugar takes what is left. */
  predicate Split(sprinkles: int, peanutButter: int, frosting: int)
  {
    0 <= sprinkles && 0 <= peanutButter && 0 <= frosting && sprinkles + peanutButter + frosting <= 100
  }

  /** What one split offers to the running maximum: its score, or, in the
      calorie-limited search, nothing unless it has exactly 500 calories. */
  function Candidate(limited: bool, sprinkles: int, peanutButter: int, frosting: int): nat
  {
    var recipe := Mixture(sprinkles, peanutButter, frosting, 100 - sprinkles - peanutButter - frosting);
    if limited && CaloriesOf(recipe) != 500 then 0 else Score(recipe)
  }

  /** The best candidate with frosting below `n`. */
  function BestFrosting(limited: bool, sprinkles: int, peanutButter: int, n: nat): nat
  {
    if n == 0 then 0
    else Max(BestFrosting(limited, sprinkles, peanutButter, n - 1), Candidate(limited, sprinkles, peanutButter, n - 1))
  }

  /** The best candidate with peanut butter below `n`. */
  function BestPeanut(limited: bool, sprinkles: int, n: nat): nat
    requires n <= 101 - sprinkles
  {
    if n == 0 then 0
    else Max(BestPeanut(limited, sprinkles, n - 1), BestFrosting(limited, sprinkles, n - 1, 100 - sprinkles - (n - 1) + 1))
  }

  /** The best candidate with sprinkles below `n`. */
  function BestSprinkles(limited: bool, n: nat): nat
    requires n <= 101
  {
    if n == 0 then 0
    else Max(BestSprinkles(limited, n - 1), BestPeanut(limited, n - 1, 100 - (n - 1) + 1))
  }

  function Best(limited: bool): nat
  {
    BestSprinkles(limited, 101)
  }

  lemma {:induction false} FrostingBound(limited: bool, sprinkles: int, peanutButter: int, frosting: int, n: nat)
    requires 0 <= frosting < n
    ensures Candidate(limited, sprinkles, peanutButter, frosting) <= BestFrosting(limited, sprinkles, peanutButter, n)
  {
    if frosting < n - 1 {
      FrostingBound(limited, sprinkles, peanutButter, frosting, n - 1);
    }
  }

  lemma {:induction false} PeanutBound(limited: bool, sprinkles: int, peanutButter: int, frosting: int, n: nat)
    requires 0 <= peanutButter < n <= 101 - sprinkles && 0 <= frosting <= 100 - sprinkles - peanutButter
    ensures Candidate(limited, sprinkles, peanutButter, frosting) <= BestPeanut(limited, sprinkles, n)
  {
    if peanutButter < n - 1 {
      PeanutBound(limited, sprinkles, peanutButter, frosting, n - 1);
    } else {
      var last := n - 1;
      assert peanutButter == last;
      FrostingBound(limited, sprinkles, last, frosting, 100 - sprinkles - last + 1);
    }
  }

  lemma {:induction false} SprinklesBound(limited: bool, sprinkles: int, peanutButter: int, frosting: int, n: nat)
    requires n <= 101 && 0 <= sprinkles < n && Split(sprinkles, peanutButter, frosting)
    ensures Candidate(limited, sprinkles, peanutButter, frosting) <= BestSprinkles(limited, n)
  {
    if sprinkles < n - 1 {
      SprinklesBound(limited, sprinkles, peanutButter, frosting, n - 1);
    } else {
      PeanutBound(limited, sprinkles, peanutButter, frosting, 100 - sprinkles + 1);
    }
  }

  /** No split offers more than the best. */
  lemma BestBound(limited: bool, sprinkles: int, peanutButter: int, frosting: int)
    requires Split(sprinkles, peanutButter, frosting)
    ensures Candidate(limited, sprinkles, peanutButter, frosting) <= Best(limited)
  {
    SprinklesBound(limited, sprinkles, peanutButter, frosting, 101);
  }

  lemma {:induction false} FrostingReached(limited: bool, sprinkles: int, peanutButter: int, n: nat)
    returns (frosting: int)
    requires n > 0
    ensures 0 <= frosting < n
    ensures Candidate(limited, sprinkles, peanutButter, frosting) == BestFrosting(limited, sprinkles, peanutButter, n)
  {
    if n - 1 > 0 && BestFrosting(limited, sprinkles, peanutButter, n - 1) >= Candidate(limited, sprinkles, peanutButter, n - 1) {
      frosting := FrostingReached(limited, sprinkles, peanutButter, n - 1);
    } else {
      frosting := n - 1;
    }
  }

  lemma {:induction false} PeanutReached(limited: bool, sprinkles: int, n: nat)
    returns (peanutButter: int, frosting: int)
    requires 0 < n <= 101 - sprinkles
    ensures 0 <= peanutButter < n && 0 <= frosting <= 100 - sprinkles - peanutButter
    ensures Candidate(limited, sprinkles, peanutButter, frosting) == BestPeanut(limited, sprinkles, n)
  {
    var here := BestFrosting(limited, sprinkles, n - 1, 100 - sprinkles - (n - 1) + 1);
    if n - 1 > 0 && BestPeanut(limited, sprinkles, n - 1) >= here {
      peanutButter, frosting := PeanutReached(limited, sprinkles, n - 1);
    } else {
      peanutButter := n - 1;
      frosting := FrostingReached(limited, sprinkles, peanutButter, 100 - sprinkles - peanutButter + 1);
    }
  }

  lemma {:induction false} SprinklesReached(limited: bool, n: nat)
    returns (sprinkles: int, peanutButter: int, frosting: int)
    requires 0 < n <= 101
    ensures 0 <= sprinkles < n && Split(sprinkles, peanutButter, frosting)
    ensures Candidate(limited, sprinkles, peanutButter, frosting) == BestSprinkles(limited, n)
  {
    var here := BestPeanut(limited, n - 1, 100 - (n - 1) + 1);
    if n - 1 > 0 && BestSprinkles(limited, n - 1) >= here {
      sprinkles, peanutButter, frosting := SprinklesReached(limited, n - 1);
    } else {
      sprinkles := n - 1;
      peanutButter, frosting := PeanutReached(limited, sprinkles, 100 - sprinkles + 1);
    }
  }

  /** The best is offered by some split. */
  lemma BestReached(limited: bool) returns (sprinkles: int, peanutButter: int, frosting: int)
    ensures Split(sprinkles, peanutButter, frosting)
    ensures Candidate(limited, sprinkles, peanutButter, frosting) == Best(limited)
  {
    sprinkles, peanutButter, frosting := SprinklesReached(limited, 101);
  }

  /** The best is an upper bound on every split's candidate, and some split
      offers it. */
  lemma BestIsMaximum(limited: bool)
    ensures forall s, p, f :: Split(s, p, f) ==> Candidate(limited, s, p, f) <= Best(limited)
    ensures exists s, p, f :: Split(s, p, f) && Candidate(limited, s, p, f) == Best(limited)
  {
    forall s, p, f | Split(s, p, f)
      ensures Candidate(limited, s, p, f) <= Best(limited)
    {
      BestBound(limited, s, p, f);
    }
    var s, p, f := BestReached(limited);
  }

  /** The optimal score is the largest score of any split of 100 teaspoons,
      and some split scores it. */
  lemma OptimalIsMaximum()
    ensures forall s, p, f :: Split(s, p, f) ==> Score(Mixture(s, p, f, 100 - s - p - f)) <= Best(false)
    ensures exists s, p, f :: Split(s, p, f) && Score(Mixture(s, p, f, 100 - s - p - f)) == Best(false)
  {
    BestIsMaximum(false);
  }

  /** The limited score is the largest score of any split with exactly 500
      calories, and it is zero or scored by such a split. */
  lemma LimitedIsMaximum()
    ensures forall s, p, f :: Split(s, p, f) && CaloriesOf(Mixture(s, p, f, 100 - s - p - f)) == 500 ==>
      Score(Mixture(s, p, f, 100 - s - p - f)) <= Best(true)
    ensures Best(true) == 0 || exists s, p, f ::
      && Split(s, p, f)
      && CaloriesOf(Mixture(s, p, f, 100 - s - p - f)) == 500
      && Score(Mixture(s, p, f, 100 - s - p - f)) == Best(true)
  {
    BestIsMaximum(true);
  }

  lemma MaxAssoc(a: int, b: int, c: int)
    ensures Max(Max(a, b), c) == Max(a, Max(b, c))
  {
  }

  /** One more amount of peanut butter: folding its frostings into a running
      maximum extends the maximum over the amounts before it. */
  lemma PeanutStep(limited: bool, sprinkles: int, peanutButter: nat, m: int, before: int)
    requires 0 <= sprinkles && sprinkles + peanutButter <= 100
    requires m == Max(Max(before, BestPeanut(limited, sprinkles, peanutButter)),
                      BestFrosting(limited, sprinkles, peanutButter, 100 - sprinkles - peanutButter + 1))
    ensures m == Max(before, BestPeanut(limited, sprinkles, peanutButter + 1))
  {
    MaxAssoc(before, BestPeanut(limited, sprinkles, peanutButter),
             BestFrosting(limited, sprinkles, peanutButter, 100 - sprinkles - peanutButter + 1));
  }

  /** One more amount of frosting: folding its candidate into the running
      maximum extends the maximum over the amounts before it. */
  lemma FrostingStep(limited: bool, sprinkles: int, peanutButter: int, frosting: nat,
                     start: nat, m: nat, candidate: nat, m': nat)
    requires m == Max(start, BestFrosting(limited, sprinkles, peanutButter, frosting))
    requires candidate == Candidate(limited, sprinkles, peanutButter, frosting)
    requires m' == Max(m, candidate)
    ensures m' == Max(start, BestFrosting(limited, sprinkles, peanutButter, frosting + 1))
  {
    MaxAssoc(start, BestFrosting(limited, sprinkles, peanutButter, frosting), candidate);
  }

  /** `get_optimal_score`: three nested loops over the splits, keeping the
      largest score. */
  method OptimalScore() returns (maxScore: nat)
    ensures maxScore == Best(false)
  {
    maxScore := 0;
    for sprinkles := 0 to 101
      invariant maxScore == BestSprinkles(false, sprinkles)
    {
      var remaining := 100 - sprinkles;
      for peanutButter := 0 to remaining + 1
        invariant maxScore == Max(BestSprinkles(false, sprinkles), BestPeanut(false, sprinkles, peanutButter))
      {
        maxScore := OptimalFrostings(sprinkles, peanutButter, maxScore);
        PeanutStep(false, sprinkles, peanutButter, maxScore, BestSprinkles(false, sprinkles));
      }
    }
  }

  /** The innermost loop of `get_optimal_score`: every amount of frosting,
      sugar taking the rest. */
  method OptimalFrostings(sprinkles: int, peanutButter: int, start: nat) returns (maxScore: nat)
    requires 0 <= sprinkles && 0 <= peanutButter && sprinkles + peanutButter <= 100
    ensures maxScore == Max(start, BestFrosting(false, sprinkles, peanutButter, 100 - sprinkles - peanutButter + 1))
  {
    maxScore := start;
    var left := 100 - sprinkles - peanutButter;
    for frosting := 0 to left + 1
      invariant maxScore == Max(start, BestFrosting(false, sprinkles, peanutButter, frosting))
    {
      var sugar := left - frosting;
      var score := Score(Mixture(sprinkles, peanutButter, frosting, sugar));
      FrostingStep(false, sprinkles, peanutButter, frosting, start, maxScore, score, Max(maxScore, score));
      maxScore := Max(maxScore, score);
    }
  }

  /** `get_limited_score`: the same loops, keeping the largest score among
      the splits with exactly 500 calories. */
  method LimitedScore() returns (maxScore: nat)
    ensures maxScore == Best(true)
  {
    maxScore := 0;
    for sprinkles := 0 to 101
      invariant maxScore == BestSprinkles(true, sprinkles)
    {
      var remaining := 100 - sprinkles;
      for peanutButter := 0 to remaining + 1
        invariant maxScore == Max(BestSprinkles(true, sprinkles), BestPeanut(true, sprinkles, peanutButter))
      {
        maxScore := LimitedFrostings(sprinkles, peanutButter, maxScore);
        PeanutStep(true, sprinkles, peanutButter, maxScore, BestSprinkles(true, sprinkles));
      }
    }
  }

  /** The innermost loop of `get_limited_score`. */
  method LimitedFrostings(sprinkles: int, peanutButter: int, start: nat) returns (maxScore: nat)
    requires 0 <= sprinkles && 0 <= peanutButter && sprinkles + peanutButter <= 100
    ensures maxScore == Max(start, BestFrosting(true, sprinkles, peanutButter, 100 - sprinkles - peanutButter + 1))
  {
    maxScore := start;
    var left := 100 - sprinkles - peanutButter;
    for frosting := 0 to left + 1
      invariant maxScore == Max(start, BestFrosting(true, sprinkles, peanutButter, frosting))
    {
      var next := LimitedFrosting(sprinkles, peanutButter, frosting, left - frosting, maxScore);
      FrostingStep(true, sprinkles, peanutButter, frosting, start, maxScore,
                   Candidate(true, sprinkles, peanutButter, frosting), next);
      maxScore := next;
    }
  }

  /** The body of the innermost loop of `get_limited_score`: the split's
      score counts only when it has exactly 500 calories. */
  method LimitedFrosting(sprinkles: int, peanutButter: int, frosting: int, sugar: int, current: nat)
    returns (maxScore: nat)
    requires sugar == 100 - sprinkles - peanutButter - frosting
    ensures maxScore == Max(current, Candidate(true, sprinkles, peanutButter, frosting))
  {
    var ingredients := Mixture(sprinkles, peanutButter, frosting, sugar);
    var score := Score(ingredients);
    var calories := CaloriesOf(ingredients);
    maxScore := current;
    if calories == 500 {
      maxScore := Max(maxScore, score);
    }
  }

  /** The totals of a two-ingredient recipe. */
  lemma TotalTwo(x: int, a: Ingredient, y: int, b: Ingredient, p: Property)
    ensures Total([(x, a), (y, b)], p) == x * Of(a, p) + y * Of(b, p)
  {
    TotalAppend([(x, a)], [(y, b)], p);
    TotalOne(x, a, p);
    TotalOne(y, b, p);
    assert [(x, a)] + [(y, b)] == [(x, a), (y, b)];
  }

  /** The score test: 44 butterscotch and 56 cinnamon. */
  lemma ScoreExample(recipe: Recipe)
    requires recipe == [(44, Butterscotch), (56, Cinnamon)]
    ensures Score(recipe) == 62842880
  {
    TotalTwo(44, Butterscotch, 56, Cinnamon, Capacity);
    TotalTwo(44, Butterscotch, 56, Cinnamon, Durability);
    TotalTwo(44, Butterscotch, 56, Cinnamon, Flavor);
    TotalTwo(44, Butterscotch, 56, Cinnamon, Texture);
    assert Total(recipe, Capacity) == 68;
    assert Total(recipe, Durability) == 80;
    assert Total(recipe, Flavor) == 152;
    assert Total(recipe, Texture) == 76;
  }

  /** The calorie test: 40 butterscotch and 60 cinnamon. */
  lemma CaloriesExample(recipe: Recipe)
    requires recipe == [(40, Butterscotch), (60, Cinnamon)]
    ensures CaloriesOf(recipe) == 500
    ensures Score(recipe) == 57600000
  {
    TotalTwo(40, Butterscotch, 60, Cinnamon, Calories);
    TotalTwo(40, Butterscotch, 60, Cinnamon, Capacity);
    TotalTwo(40, Butterscotch, 60, Cinnamon, Durability);
    TotalTwo(40, Butterscotch, 60, Cinnamon, Flavor);
    TotalTwo(40, Butterscotch, 60, Cinnamon, Texture);
    assert Total(recipe, Calories) == 500;
    assert Total(recipe, Capacity) == 80;
    assert Total(recipe, Durability) == 100;
    assert Total(recipe, Flavor) == 120;
    assert Total(recipe, Texture) == 60;
  }
}
