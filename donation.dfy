/** One row of the `donations` table: the fillable fields and casts of the
    Donation model. */
module Donations {
  import opened Wrappers

  /** A translatable column: language code to text. */
  type Translations = map<string, string>

  datatype Donation = Donation(
    id: int,
    confessionId: Option<int>,      // nullable foreign key
    branchId: Option<int>,          // nullable foreign key
    name: Translations,
    description: Option<Translations>,
    purpose: Option<string>,        // nullable free-text tag
    minAmount: int,
    maxAmount: Option<int>,         // null: no upper limit
    currency: string,
    emoji: Option<string>,
    active: bool,
    order: int)
}
