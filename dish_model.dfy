/**
 * The comment and dish schemas of src/models/Dish.js as validity predicates,
 * the unique index on a dish's name, and the defaults a new dish document
 * receives.  The Decimal128 price is modelled as an integer.
 */
module DishModel {
  import opened Common

  datatype DishComment = DishComment(id: Id, rating: Option<int>, comment: Option<string>, author: Option<string>, date: Date)

  datatype Dish = Dish(
    name: Option<string>,
    image: Option<string>,
    category: Option<string>,
    dishLabel: Option<string>,  // the schema's `label`, a keyword in Dafny
    price: Option<int>,
    featured: Option<bool>,
    description: Option<string>,
    comments: seq<DishComment>)

  /** rating is a required number in [1, 5]; comment and author are required strings. */
  predicate ValidDishComment(c: DishComment)
  {
    c.rating.Some? && 1 <= c.rating.value <= 5 && RequiredString(c.comment) && RequiredString(c.author)
  }

  /** name, image, category and description are required strings; price is required and at least 0. */
  predicate ValidDish(d: Dish)
  {
    && RequiredString(d.name)
    && RequiredString(d.image)
    && RequiredString(d.category)
    && RequiredString(d.description)
    && d.price.Some? && d.price.value >= 0
    && forall k :: 0 <= k < |d.comments| ==> ValidDishComment(d.comments[k])
  }

  /** The unique index on a dish's name. */
  predicate UniqueDishNames(dishes: map<Id, Dish>)
  {
    forall a, b :: a in dishes && b in dishes && a != b ==> dishes[a].name != dishes[b].name
  }

  /** `new Dish({...})`: an absent label becomes "" and an absent featured becomes false. */
  function NewDish(name: Option<string>, image: Option<string>, category: Option<string>, dishLabel: Option<string>,
                   price: Option<int>, featured: Option<bool>, description: Option<string>,
                   comments: seq<DishComment>): (d: Dish)
    ensures d.dishLabel.Some? && d.featured.Some?
    ensures dishLabel.Some? ==> d.dishLabel == dishLabel
    ensures featured.Some? ==> d.featured == featured
    ensures d.(dishLabel := dishLabel, featured := featured) == Dish(name, image, category, dishLabel, price, featured, description, comments)
  {
    Dish(name, image, category, if dishLabel.None? then Some("") else dishLabel, price,
         if featured.None? then Some(false) else featured, description, comments)
  }

  /** The defaults are "" and false, and they never decide whether a new dish is valid. */
  lemma NewDishDefaults(name: Option<string>, image: Option<string>, category: Option<string>,
                        price: Option<int>, description: Option<string>, comments: seq<DishComment>,
                        dishLabel: Option<string>, featured: Option<bool>)
    ensures var d := NewDish(name, image, category, None, price, None, description, comments);
      d.dishLabel == Some("") && d.featured == Some(false)
    ensures ValidDish(NewDish(name, image, category, dishLabel, price, featured, description, comments))
        == ValidDish(NewDish(name, image, category, None, price, None, description, comments))
  {
  }
}
