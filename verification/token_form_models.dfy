/**
 * The row family of the later token forms (Authenticator/Source/TokenFormModels.swift):
 * each row carries an identity string, and rows are compared by that string
 * within the same kind of row. Its option tables are those of the token form
 * rows.
 */
module TokenFormModels {
  import SegmentedControl
  import TokenFormRows

  datatype HeaderModel<A> = ButtonHeader(identity: string, title: string, action: A)

  datatype RowModel<A> =
    | TextFieldRow(identity: string, textField: TokenFormRows.TextFieldRowModel<A>)
    | SegmentedControlRow(identity: string, segmented: SegmentedControl.RowViewModel<A>)

  /** `hasSameIdentity(as:)`: the same kind of row with the same identity string; contents do not matter. */
  predicate HasSameIdentity<A>(a: RowModel<A>, b: RowModel<A>) {
    match (a, b)
    case (TextFieldRow(x, _), TextFieldRow(y, _)) => x == y
    case (SegmentedControlRow(x, _), SegmentedControlRow(y, _)) => x == y
    case _ => false
  }

  /**
   * Identity is an equivalence relation: rows of different kinds never share
   * it, and rows of one kind share it exactly when their identity strings are
   * equal.
   */
  lemma HasSameIdentityIsEquivalence<A>(a: RowModel<A>, b: RowModel<A>, c: RowModel<A>)
    ensures HasSameIdentity(a, b) <==> a.TextFieldRow? == b.TextFieldRow? && a.identity == b.identity
    ensures HasSameIdentity(a, a)
    ensures HasSameIdentity(a, b) ==> HasSameIdentity(b, a)
    ensures HasSameIdentity(a, b) && HasSameIdentity(b, c) ==> HasSameIdentity(a, c)
  {
  }
}
