/** The records and enumerations of the diet tracker (types.ts).
    Every JavaScript `number` field is modelled as an exact `real`. */
module Types {

  /** `T | null`, as the food-analysis gateway returns it. */
  datatype Option<+T> = None | Some(value: T)

  /** Gender.MALE / Gender.FEMALE; their display strings play no part in any computation. */
  datatype Gender = Male | Female

  /** UserProfile: height in cm, weight and targetWeight in kg,
      activityLevel the multiplier applied to the basal metabolic rate. */
  datatype UserProfile = UserProfile(
    name: string,
    age: real,
    gender: Gender,
    height: real,
    weight: real,
    targetWeight: real,
    activityLevel: real)

  /** One analysed food entry; the timestamp is an opaque ISO string. */
  datatype FoodItem = FoodItem(
    name: string,
    calories: real,
    protein: real,
    carbs: real,
    fat: real,
    timestamp: string)

  /** One calendar day: foods in append (chronological) order, water in millilitres. */
  datatype DailyLog = DailyLog(date: string, foods: seq<FoodItem>, waterIntake: real)
}
