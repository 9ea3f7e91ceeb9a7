/**
 * The category structure both tools read from `category-structure.yml`:
 * meta-categories, each naming the verifiers that take part in it and the
 * categories it is made of, and per-verifier opt-ins and opt-outs.
 */
module Categories {
  import opened Wrappers

  /** One entry of `categories`: its `verifiers` list and its `categories` list. */
  datatype MetaCategory = MetaCategory(verifiers: seq<string>, categories: seq<string>)

  /**
   * The whole structure. `optIn` and `optOut` are None when the YAML key holds
   * no mapping (null); `notParticipating` is None when the optional key is absent.
   */
  datatype CategoryStructure = CategoryStructure(
    categories: map<string, MetaCategory>,
    optIn: Option<map<string, seq<string>>>,
    optOut: Option<map<string, seq<string>>>,
    notParticipating: Option<seq<string>>)
}
