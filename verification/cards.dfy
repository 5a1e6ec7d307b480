/** A card document of the `cards` collection as far as the core reads it:
    its id, its display name and its optional rarity field. */
module Cards {

  import opened Optional

  type CardId = nat

  /** `rarity` is `None` when the document has no rarity field. */
  datatype Card = Card(id: CardId, name: string, rarity: Option<string>)

}
