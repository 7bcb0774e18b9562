/** Instrument pack identifiers and the names the game shows for them
    (the `mapping` table and `getPackName` of parsesong.py). */
module PackNames {

  /** The nine instrument packs whose in-game name is known. */
  const Mapping: map<string, string> := map[
    "BardTennoPackA" := "Adau",
    "BardCorpusPackA" := "Alpha",
    "BardCorpusPackB" := "Beta",
    "BardCorpusPackD" := "Delta",
    "BardGrineerPackA" := "Druk",
    "BardCorpusPackE" := "Epsilon",
    "BardCorpusPackC" := "Gamma",
    "BardEDMPackA" := "Horos",
    "BardGrineerPackB" := "Plogg"
  ]

  /** The display name of an instrument pack: its table entry, or the
      identifier itself for a pack the table does not know, so no
      identifier is ever an error. */
  function PackName(id: string): (name: string)
    ensures id in Mapping ==> name == Mapping[id]
    ensures id !in Mapping ==> name == id
    ensures name in Mapping.Values || name == id
  {
    if id in Mapping then Mapping[id] else id
  }

  /** Each known identifier resolves to its in-game name. */
  lemma PackNameKnown()
    ensures PackName("BardTennoPackA") == "Adau"
    ensures PackName("BardCorpusPackA") == "Alpha"
    ensures PackName("BardCorpusPackB") == "Beta"
    ensures PackName("BardCorpusPackD") == "Delta"
    ensures PackName("BardGrineerPackA") == "Druk"
    ensures PackName("BardCorpusPackE") == "Epsilon"
    ensures PackName("BardCorpusPackC") == "Gamma"
    ensures PackName("BardEDMPackA") == "Horos"
    ensures PackName("BardGrineerPackB") == "Plogg"
  {
  }

  /** No display name is itself an identifier of the table. */
  lemma NamesAreNotIdentifiers(id: string)
    requires id in Mapping
    ensures Mapping[id] !in Mapping
  {
  }

  /** Resolving a name twice gives the same name as resolving it once. */
  lemma PackNameIdempotent(id: string)
    ensures PackName(PackName(id)) == PackName(id)
  {
    if id in Mapping {
      NamesAreNotIdentifiers(id);
    }
  }
}
