/** The menu handlers of backend/controllers/foodController.js over the store of
    food records: `addFood`, `removeFood`, `getFoodDetails` and `updateFood`. */
module FoodCatalog {
  import opened Common
  import opened FoodModel

  /** The replies: success (with the record where the handler sends one), "Food item not
      found", a `success: false` error reply, or no reply at all (an exception thrown
      outside the handler's try block, which Express 4 leaves unanswered). */
  datatype FoodReply = Success(data: Option<Food>) | NotFound | Failed | NoReply

  datatype CatalogResult = CatalogResult(store: FoodStore, reply: FoodReply)

  /** The raw `price` field of the form: left out, the empty string, a string that reads
      as a number (a blank string of spaces reads as 0), or one that does not. */
  datatype PriceField = PriceMissing | PriceEmpty | PriceNumber(cents: int) | PriceNaN

  /** The multipart form of `addFood` and `updateFood`; `file` is the uploaded image's
      stored file name. */
  datatype FoodForm = FoodForm(
    name: Option<string>,
    description: Option<string>,
    price: PriceField,
    category: Option<string>,
    file: Option<string>,
    options: JsonList<OptionInput>,
    requiredOptions: JsonList<RequiredOption>)

  /** Both JSON fields parse. */
  predicate Parses(form: FoodForm)
  {
    !form.options.Malformed? && !form.requiredOptions.Malformed?
  }

  /** The parsed option lists, an absent field giving `[]`. */
  function FormOptions(form: FoodForm): seq<FoodOption>
    requires Parses(form)
  {
    if form.options.Parsed? then NewOptions(form.options.items) else []
  }

  function FormRequiredOptions(form: FoodForm): seq<RequiredOption>
    requires Parses(form)
  {
    if form.requiredOptions.Parsed? then form.requiredOptions.items else []
  }

  /** The price as the schema casts it when `addFood` saves: the empty string casts to null
      and so fails the required check like a missing field, and a non-numeric string
      fails the cast. */
  function SavedPrice(price: PriceField): (r: Option<int>)
    ensures r.Some? <==> price.PriceNumber?
    ensures r.Some? ==> r.value == price.cents
  {
    if price.PriceNumber? then Some(price.cents) else None
  }

  /** The price as `Number(...)` reads it in `updateFood`: the empty string reads as 0,
      while a missing or non-numeric field reads as NaN, which the update's cast rejects. */
  function NumberPrice(price: PriceField): (r: Option<int>)
    ensures r.Some? <==> price.PriceNumber? || price.PriceEmpty?
    ensures price.PriceEmpty? ==> r == Some(0)
    ensures price.PriceNumber? ==> r == Some(price.cents)
  {
    match price
    case PriceEmpty => Some(0)
    case PriceNumber(cents) => Some(cents)
    case _ => None
  }

  /** `addFood`: stores the new record under a fresh id when both JSON fields parse and
      the record validates. The image is the uploaded file's name, or "" without one. */
  function AddFood(store: FoodStore, newId: Id, form: FoodForm): (r: CatalogResult)
    requires newId !in store
    ensures !Parses(form) ==> r == CatalogResult(store, NoReply)
    ensures r.reply.Success? <==>
      (&& Parses(form) && SavedPrice(form.price).Some? && Truthy(form.name)
       && forall g :: g in FormRequiredOptions(form) ==> RequiredOptionValid(g))
    ensures !r.reply.Success? ==> r.store == store
    ensures Parses(form) && !r.reply.Success? ==> r.reply == Failed
    ensures r.reply.Success? ==>
      && r.reply.data.None?
      && r.store.Keys == store.Keys + {newId}
      && (forall id :: id in store ==> r.store[id] == store[id])
      && Savable(r.store[newId])
      && r.store[newId].image == Some(form.file.GetOr(""))
      && r.store[newId].name == form.name
      && r.store[newId].description == form.description
      && r.store[newId].category == form.category
      && form.price.PriceNumber? && r.store[newId].price == form.price.cents
      && (form.options.Absent? ==> r.store[newId].options == [])
      && (form.options.Parsed? ==> r.store[newId].options == NewOptions(form.options.items))
      && (form.requiredOptions.Absent? ==> r.store[newId].requiredOptions == [])
      && (form.requiredOptions.Parsed? ==> r.store[newId].requiredOptions == form.requiredOptions.items)
  {
    if !Parses(form) then
      CatalogResult(store, NoReply)
    else if SavedPrice(form.price).None? then
      CatalogResult(store, Failed)
    else
      var food := Food(form.name, form.description, SavedPrice(form.price).value, form.category,
                       Some(form.file.GetOr("")), FormOptions(form), FormRequiredOptions(form));
      if Savable(food) then CatalogResult(store[newId := food], Success(None))
      else CatalogResult(store, Failed)
  }

  /** `removeFood`: drops exactly the record with that id, or reports it missing. */
  function RemoveFood(store: FoodStore, id: Id, isObjectId: IdCheck): (r: CatalogResult)
    ensures !isObjectId(id) ==> r == CatalogResult(store, Failed)
    ensures isObjectId(id) && id !in store ==> r == CatalogResult(store, NotFound)
    ensures isObjectId(id) && id in store ==>
      && r.reply == Success(None)
      && r.store.Keys == store.Keys - {id}
      && (forall k :: k in r.store ==> r.store[k] == store[k])
  {
    if !isObjectId(id) then CatalogResult(store, Failed)
    else if id !in store then CatalogResult(store, NotFound)
    else CatalogResult(store - {id}, Success(None))
  }

  /** `getFoodDetails`: the stored record, or "not found"; it reads and never writes. */
  function GetFoodDetails(store: FoodStore, id: Id, isObjectId: IdCheck): (r: FoodReply)
    ensures r.Success? <==> isObjectId(id) && id in store
    ensures r.Success? ==> r.data == Some(store[id])
    ensures r.NotFound? <==> isObjectId(id) && id !in store
    ensures !isObjectId(id) ==> r == Failed
  {
    if !isObjectId(id) then Failed
    else if id !in store then NotFound
    else Success(Some(store[id]))
  }

  /** A field of an update: the form's value, or the stored one when the form leaves it
      out (an `undefined` key is dropped from the update). */
  function Overwrite(given: Option<string>, stored: Option<string>): Option<string>
  {
    if given.Some? then given else stored
  }

  /** `updateFood`: overwrites the record's fields with the form's, keeping the old image
      unless a new file came with the form. No validation runs on this path. */
  function UpdateFood(store: FoodStore, id: Id, form: FoodForm, isObjectId: IdCheck): (r: CatalogResult)
    ensures !(isObjectId(id) && id in store && Parses(form) && NumberPrice(form.price).Some?) ==> r.store == store
    ensures !isObjectId(id) ==> r.reply == Failed
    ensures isObjectId(id) && id !in store ==> r.reply == NotFound
    ensures isObjectId(id) && id in store && !(Parses(form) && NumberPrice(form.price).Some?) ==> r.reply == Failed
    ensures r.reply.Success? <==> isObjectId(id) && id in store && Parses(form) && NumberPrice(form.price).Some?
    ensures r.reply.Success? ==> id in store && id in r.store
    ensures r.reply.Success? && id in store && id in r.store ==>
      var updated := r.store[id];
      && r.store.Keys == store.Keys
      && (forall k :: k in store && k != id ==> r.store[k] == store[k])
      && r.reply.data == Some(updated)
      && (form.name.Some? ==> updated.name == form.name)
      && (form.name.None? ==> updated.name == store[id].name)
      && (form.description.Some? ==> updated.description == form.description)
      && (form.description.None? ==> updated.description == store[id].description)
      && (form.category.Some? ==> updated.category == form.category)
      && (form.category.None? ==> updated.category == store[id].category)
      && (form.price.PriceNumber? ==> updated.price == form.price.cents)
      && (form.price.PriceEmpty? ==> updated.price == 0)
      && updated.options == FormOptions(form) && updated.requiredOptions == FormRequiredOptions(form)
      && (form.file.None? ==> updated.image == store[id].image)
      && (form.file.Some? ==> updated.image == form.file)
  {
    if !isObjectId(id) then CatalogResult(store, Failed)
    else if id !in store then CatalogResult(store, NotFound)
    else if !Parses(form) || NumberPrice(form.price).None? then CatalogResult(store, Failed)
    else
      var stored := store[id];
      var updated := Food(Overwrite(form.name, stored.name), Overwrite(form.description, stored.description),
                          NumberPrice(form.price).value, Overwrite(form.category, stored.category),
                          Overwrite(form.file, stored.image), FormOptions(form), FormRequiredOptions(form));
      CatalogResult(store[id := updated], Success(Some(updated)))
  }

  /** Every stored record validates. */
  predicate CatalogValid(store: FoodStore)
  {
    forall id :: id in store ==> Savable(store[id])
  }

  /** Adding and removing keep the catalog valid. */
  lemma AddRemoveKeepValid(store: FoodStore, newId: Id, form: FoodForm, id: Id, isObjectId: IdCheck)
    requires newId !in store
    requires CatalogValid(store)
    ensures CatalogValid(AddFood(store, newId, form).store)
    ensures CatalogValid(RemoveFood(store, id, isObjectId).store)
  {
  }

  /** Updating can store a record that validation would reject: an empty name. */
  lemma UpdateCanBreakValid(store: FoodStore, id: Id, form: FoodForm, isObjectId: IdCheck)
    requires isObjectId(id) && id in store && CatalogValid(store)
    requires Parses(form) && NumberPrice(form.price).Some? && form.name == Some("")
    ensures !CatalogValid(UpdateFood(store, id, form, isObjectId).store)
  {
    assert !Savable(UpdateFood(store, id, form, isObjectId).store[id]);
  }

  /** An empty price is read two ways: `addFood` rejects the record, while `updateFood`
      stores a price of 0. */
  lemma EmptyPriceAddFailsUpdateZeroes(store: FoodStore, newId: Id, id: Id, form: FoodForm, isObjectId: IdCheck)
    requires newId !in store && isObjectId(id) && id in store
    requires Parses(form) && form.price == PriceEmpty
    ensures AddFood(store, newId, form) == CatalogResult(store, Failed)
    ensures var updated := UpdateFood(store, id, form, isObjectId);
      updated.reply.Success? && updated.store[id].price == 0
  {
  }

  /** What `addFood` stores, `getFoodDetails` returns under the new id. */
  lemma AddThenGet(store: FoodStore, newId: Id, form: FoodForm, isObjectId: IdCheck)
    requires newId !in store && isObjectId(newId)
    requires AddFood(store, newId, form).reply.Success?
    ensures var added := AddFood(store, newId, form).store;
      GetFoodDetails(added, newId, isObjectId) == Success(Some(added[newId]))
  {
  }

  /** After `removeFood`, the record is not found. */
  lemma RemoveThenGet(store: FoodStore, id: Id, isObjectId: IdCheck)
    requires isObjectId(id)
    ensures GetFoodDetails(RemoveFood(store, id, isObjectId).store, id, isObjectId) == NotFound
  {
  }
}
