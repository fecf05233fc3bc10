/** The calorie highlight of one recipe card. */
module RecipeCard {

  /** The `calorieStats` a card receives: the largest, the smallest and the mean
      calorie value of the whole collection. */
  datatype CalorieStats = CalorieStats(max: int, min: int, avg: real)

  /** The highlight class: red and bold for the maximum, green and bold for the
      minimum, yellow for values near the average, none otherwise. */
  datatype Tier = MaxTier | MinTier | NearAverage | Neutral

  function Abs(x: real): real {
    if x < 0.0 then -x else x
  }

  /** `calColor`: the first test that holds decides, in the order max, min, near
      average. So the maximum wins over everything, the minimum over the average test,
      the 20-calorie tolerance is inclusive, and a card that passes none of the tests
      gets no highlight. */
  function CalColor(calories: int, stats: CalorieStats): (r: Tier)
    ensures r == MaxTier <==> calories == stats.max
    ensures r == MinTier <==> calories != stats.max && calories == stats.min
    ensures r == NearAverage <==>
      calories != stats.max && calories != stats.min && -20.0 <= calories as real - stats.avg <= 20.0
    ensures r == Neutral <==>
      calories != stats.max && calories != stats.min && Abs(calories as real - stats.avg) > 20.0
  {
    if calories == stats.max then MaxTier
    else if calories == stats.min then MinTier
    else if Abs(calories as real - stats.avg) <= 20.0 then NearAverage
    else Neutral
  }

  /** A card with 600 calories, the maximum of stats (600, 300, 450), is red; with
      stats (300, 100, 200), 195 and 220 calories are near the average and 221 is not. */
  lemma CalColorExamples()
    ensures CalColor(600, CalorieStats(600, 300, 450.0)) == MaxTier
    ensures CalColor(300, CalorieStats(300, 100, 200.0)) == MaxTier
    ensures CalColor(100, CalorieStats(300, 100, 200.0)) == MinTier
    ensures CalColor(195, CalorieStats(300, 100, 200.0)) == NearAverage
    ensures CalColor(220, CalorieStats(300, 100, 200.0)) == NearAverage
    ensures CalColor(221, CalorieStats(300, 100, 200.0)) == Neutral
  {
  }
}
