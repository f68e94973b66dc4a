/** The menu record of backend/models/foodModel.js: a food with optional add-on
    options and required option groups, their defaults and required fields. */
module FoodModel {
  import opened Common

  /** An add-on option; its `price` defaults to 0 (cents). */
  datatype FoodOption = FoodOption(name: Option<string>, price: int)

  /** A required option group: a name and the choices offered. */
  datatype RequiredOption = RequiredOption(name: Option<string>, choices: seq<string>)

  /** A menu record. `description`, `category` and `image` are optional in the schema. */
  datatype Food = Food(
    name: Option<string>,
    description: Option<string>,
    price: int,
    category: Option<string>,
    image: Option<string>,
    options: seq<FoodOption>,
    requiredOptions: seq<RequiredOption>)

  /** Menu records by document id. */
  type FoodStore = map<Id, Food>

  /** An add-on option as it arrives in the request's JSON, price possibly left out. */
  datatype OptionInput = OptionInput(name: Option<string>, price: Option<int>)

  /** The stored option, an absent price taking the schema default 0. */
  function NewOption(input: OptionInput): (r: FoodOption)
    ensures r.name == input.name
    ensures input.price.None? ==> r.price == 0
    ensures input.price.Some? ==> r.price == input.price.value
  {
    FoodOption(input.name, input.price.GetOr(0))
  }

  function NewOptions(inputs: seq<OptionInput>): (r: seq<FoodOption>)
    ensures |r| == |inputs|
    ensures forall i :: 0 <= i < |r| ==> r[i] == NewOption(inputs[i])
  {
    seq(|inputs|, i requires 0 <= i < |inputs| => NewOption(inputs[i]))
  }

  /** A required group passes validation: it has a name and every choice is a non-empty string. */
  predicate RequiredOptionValid(group: RequiredOption)
  {
    Truthy(group.name) && forall c :: c in group.choices ==> c != ""
  }

  /** A record passes the schema's validation on save: `name` present and non-empty,
      every required group valid (`price` is required too, and a `Food` always has one). */
  predicate Savable(food: Food)
  {
    Truthy(food.name) && forall g :: g in food.requiredOptions ==> RequiredOptionValid(g)
  }
}
