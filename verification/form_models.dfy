/**
 * The table family of the token entry form (Authenticator/Source/FormModels.swift):
 * its header and row models, and row identity for diffing.
 *
 * The form's `Action` enum is declared outside this model; its cases are the
 * ones the entry form's action handler switches over.
 */
module Form {
  import Tokens
  import SegmentedControl
  import TokenFormRows

  datatype Action =
    | Issuer(issuer: string)
    | Name(name: string)
    | Secret(secret: string)
    | TokenType(tokenType: TokenFormRows.TokenType)
    | DigitCount(digitCount: int)
    | Algorithm(algorithm: Tokens.Algorithm)
    | ShowAdvancedOptions
    | Cancel
    | Submit

  datatype HeaderModel = ButtonHeader(title: string, action: Action)

  datatype RowModel =
    | TextFieldRow(textField: TokenFormRows.TextFieldRowModel<Action>)
    | TokenTypeRow(tokenType: SegmentedControl.RowViewModel<Action>)
    | DigitCountRow(digitCount: SegmentedControl.RowViewModel<Action>)
    | AlgorithmRow(algorithm: SegmentedControl.RowViewModel<Action>)

  /**
   * `hasSameIdentity`: rows of the form do not move, so two rows are the same
   * row exactly when they are the same kind of row, whatever they show.
   */
  predicate HasSameIdentity(a: RowModel, b: RowModel) {
    match (a, b)
    case (TextFieldRow(_), TextFieldRow(_)) => true
    case (TokenTypeRow(_), TokenTypeRow(_)) => true
    case (DigitCountRow(_), DigitCountRow(_)) => true
    case (AlgorithmRow(_), AlgorithmRow(_)) => true
    case _ => false
  }

  /** The kind of a row, numbered in declaration order. */
  function Kind(r: RowModel): (k: nat)
    ensures k < 4
  {
    match r
    case TextFieldRow(_) => 0
    case TokenTypeRow(_) => 1
    case DigitCountRow(_) => 2
    case AlgorithmRow(_) => 3
  }

  /**
   * Identity is sameness of kind: an equivalence relation, so the table diff
   * may use it as its row comparator.
   */
  lemma HasSameIdentityIsSameKind(a: RowModel, b: RowModel, c: RowModel)
    ensures HasSameIdentity(a, b) <==> Kind(a) == Kind(b)
    ensures HasSameIdentity(a, a)
    ensures HasSameIdentity(a, b) ==> HasSameIdentity(b, a)
    ensures HasSameIdentity(a, b) && HasSameIdentity(b, c) ==> HasSameIdentity(a, c)
  {
  }

  /** Two text-field rows share identity even when their labels and values differ. */
  lemma TextFieldRowsShareIdentity(x: TokenFormRows.TextFieldRowModel<Action>, y: TokenFormRows.TextFieldRowModel<Action>)
    ensures HasSameIdentity(TextFieldRow(x), TextFieldRow(y))
  {
  }
}
