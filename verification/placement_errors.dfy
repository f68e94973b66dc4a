/** How the catch block of `placeOrder` (backend/controllers/orderController.js:232-247)
    picks the message of its 500 reply from the error it caught. The selection matches
    English phrases, while the handler's own item checks throw French messages. */
module PlacementErrors {
  import opened Common

  /** What reaches the catch block: the error's `name`, its `message`, and the `type`
      a payment-provider error carries. */
  datatype Thrown = Thrown(name: string, message: string, providerType: Option<string>)

  /** The reply messages the catch block chooses between. */
  datatype Message = ValidationMessage | ItemDataMessage | InvalidIdMessage | ProviderMessage | GenericMessage

  /** The message thrown when a line lacks `_id`, `name`, `price` or `quantity`, written
      in pieces so that facts about its characters can be shown piece by piece. */
  const MissingEssentialsText: string := Piece1 + Piece2 + Piece3 + Piece4 + Piece5 + Piece6 + Piece7 + Piece8
  const Piece1: string := "Propriétés "
  const Piece2: string := "d'article "
  const Piece3: string := "essentielles "
  const Piece4: string := "manquantes "
  const Piece5: string := "(ID, nom, prix "
  const Piece6: string := "ou quantité) "
  const Piece7: string := "pour un ou "
  const Piece8: string := "plusieurs articles."

  /** The message thrown when a line is unfit for the checkout session. */
  const InvalidCheckoutItemText: string := "Données d'article invalides pour le paiement Stripe."

  /** `s.includes(p)`. */
  predicate Contains(s: string, p: string)
    decreases |s|
  {
    StartsWith(s, p) || (|s| > 0 && Contains(s[1..], p))
  }

  /** `s.startsWith(p)`. */
  predicate StartsWith(s: string, p: string)
  {
    |p| <= |s| && s[..|p|] == p
  }

  lemma ContainsItself(s: string)
    ensures Contains(s, s)
  {
    assert StartsWith(s, s);
  }

  /** A string cannot contain a pattern holding a character the string lacks. */
  lemma {:induction false} MissingCharNotContained(s: string, p: string, j: nat)
    requires j < |p| && p[j] !in s
    ensures !Contains(s, p)
    decreases |s|
  {
    if j < |s| {
      assert s[j] in s;
    }
    if |s| > 0 {
      assert forall x :: x in s[1..] ==> x in s;
      MissingCharNotContained(s[1..], p, j);
    }
  }

  /** The selection as written: each test looks for an English phrase. */
  function SelectMessageAsWritten(e: Thrown): (r: Message)
    ensures e.name == "ValidationError" <==> r == ValidationMessage
    ensures r == ItemDataMessage <==>
      && e.name != "ValidationError"
      && (Contains(e.message, "Missing essential item properties")
          || Contains(e.message, "Invalid item data for Stripe checkout"))
    ensures r == InvalidIdMessage <==>
      && e.name != "ValidationError"
      && !Contains(e.message, "Missing essential item properties")
      && !Contains(e.message, "Invalid item data for Stripe checkout")
      && Contains(e.message, "ObjectId")
    ensures r == ProviderMessage <==>
      && e.name != "ValidationError"
      && !Contains(e.message, "Missing essential item properties")
      && !Contains(e.message, "Invalid item data for Stripe checkout")
      && !Contains(e.message, "ObjectId")
      && e.providerType.Some? && StartsWith(e.providerType.value, "Stripe")
  {
    if e.name == "ValidationError" then ValidationMessage
    else if Contains(e.message, "Missing essential item properties")
         || Contains(e.message, "Invalid item data for Stripe checkout") then ItemDataMessage
    else if Contains(e.message, "ObjectId") then InvalidIdMessage
    else if e.providerType.Some? && StartsWith(e.providerType.value, "Stripe") then ProviderMessage
    else GenericMessage
  }

  /** None of the message's pieces holds an 'M', a 'k' or an 'O', the first letters
      of the three English phrases the selection looks for. */
  lemma PiecesLackPatternLetters()
    ensures NoPatternLetter(MissingEssentialsText)
  {
    assert NoPatternLetter(Piece1);
    assert NoPatternLetter(Piece2);
    assert NoPatternLetter(Piece3);
    assert NoPatternLetter(Piece4);
    assert NoPatternLetter(Piece5);
    assert NoPatternLetter(Piece6);
    assert NoPatternLetter(Piece7);
    assert NoPatternLetter(Piece8);
  }

  predicate NoPatternLetter(s: string)
  {
    'M' !in s && 'k' !in s && 'O' !in s
  }

  /** The error a line without its essentials raises falls through every test to the
      generic message, so the item-data message is never chosen for it. */
  lemma MissingEssentialsGetsGenericMessage()
    ensures SelectMessageAsWritten(Thrown("Error", MissingEssentialsText, None)) == GenericMessage
  {
    PiecesLackPatternLetters();
    MissingCharNotContained(MissingEssentialsText, "Missing essential item properties", 0);
    MissingCharNotContained(MissingEssentialsText, "Invalid item data for Stripe checkout", 33);
    MissingCharNotContained(MissingEssentialsText, "ObjectId", 0);
  }

  /** The selection as intended: the item-data message answers the handler's own item
      errors, matched by the texts it actually throws. */
  function SelectMessage(e: Thrown): (r: Message)
    ensures e.name == "ValidationError" <==> r == ValidationMessage
    ensures e.name != "ValidationError" && (e.message == MissingEssentialsText || e.message == InvalidCheckoutItemText)
      ==> r == ItemDataMessage
  {
    ContainsItself(e.message);
    if e.name == "ValidationError" then ValidationMessage
    else if Contains(e.message, MissingEssentialsText)
         || Contains(e.message, InvalidCheckoutItemText) then
      ItemDataMessage
    else if Contains(e.message, "ObjectId") then InvalidIdMessage
    else if e.providerType.Some? && StartsWith(e.providerType.value, "Stripe") then ProviderMessage
    else GenericMessage
  }

  /** The correction changes only which texts the item-data test looks for: an error
      mentioning none of the four texts gets the same message from both selections. */
  lemma SelectionsAgreeElsewhere(e: Thrown)
    requires !Contains(e.message, "Missing essential item properties")
    requires !Contains(e.message, "Invalid item data for Stripe checkout")
    requires !Contains(e.message, MissingEssentialsText) && !Contains(e.message, InvalidCheckoutItemText)
    ensures SelectMessage(e) == SelectMessageAsWritten(e)
  {
  }
}
