/** The two names of the id key, the new one and the retired one. */
module IdKeys {
  const CANON := "backlog_item_id"
  const LEGACY := "item_id"
}
