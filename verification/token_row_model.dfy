/**
 * The row model of one token in the list, Authenticator/Source/TokenRowModel.swift:
 * what a row shows, the actions it sends, its identity for diffing, and the
 * two equality operators.
 *
 * The list's `Action` enum is declared outside this model; its cases are the
 * ones the exhaustive `switch` of the `Action` equality operator names.
 */
module TokenRowModel {
  import opened Wrappers
  import opened Tokens

  datatype Action =
    | BeginAddToken
    | EditPersistentToken(persistentToken: PersistentToken)
    | UpdatePersistentToken(persistentToken: PersistentToken)
    | MoveToken(fromIndex: int, toIndex: int)
    | DeletePersistentToken(persistentToken: PersistentToken)
    | CopyPassword(password: string)
    | UpdateViewModel

  /** The two cases without a payload. */
  predicate Nullary(a: Action) {
    a.BeginAddToken? || a.UpdateViewModel?
  }

  datatype RowModel = RowModel(
    name: string,
    issuer: string,
    password: string,
    showsButton: bool,
    buttonAction: Action,
    selectAction: Action,
    editAction: Action,
    deleteAction: Action,
    identifier: Bytes)

  /**
   * `init(persistentToken:)`. `currentPassword` is what the OneTimePassword
   * library generates for the token at this moment, or nothing when it
   * cannot.
   */
  function Init(p: PersistentToken, currentPassword: Option<string>): (r: RowModel)
    ensures r.name == p.token.name && r.issuer == p.token.issuer
    ensures currentPassword.Some? ==> r.password == currentPassword.value
    ensures currentPassword.None? ==> r.password == ""
    ensures r.showsButton <==> p.token.generator.factor.Counter?
    ensures r.buttonAction == UpdatePersistentToken(p)
    ensures r.selectAction == CopyPassword(r.password)
    ensures r.editAction == EditPersistentToken(p)
    ensures r.deleteAction == DeletePersistentToken(p)
    ensures r.identifier == p.identifier
  {
    var password := currentPassword.GetOr("");
    RowModel(
      p.token.name, p.token.issuer, password,
      p.token.generator.factor.Counter?,
      UpdatePersistentToken(p), CopyPassword(password), EditPersistentToken(p), DeletePersistentToken(p),
      p.identifier)
  }

  /** `hasSameIdentity`: the rows show the same keychain item. */
  predicate HasSameIdentity(a: RowModel, b: RowModel) {
    a.identifier == b.identifier
  }

  /** Two rows built from persistent tokens share identity exactly when the tokens share their identifier. */
  lemma InitIdentity(p: PersistentToken, q: PersistentToken, pw: Option<string>, qw: Option<string>)
    ensures HasSameIdentity(Init(p, pw), Init(q, qw)) <==> p.identifier == q.identifier
  {
  }

  // ---------------------------------------------------------------------
  // Action equality
  // ---------------------------------------------------------------------

  /**
   * The `Action` equality operator as written, run for at most `fuel` calls:
   * `None` when the calls have not come to an answer by then. The nullary
   * cases answer by calling the operator again on `(rhs, case)`; payload
   * cases compare payloads when the other side is the same case and are
   * false otherwise.
   */
  function ActionEqualsAsWritten(lhs: Action, rhs: Action, fuel: nat): (r: Option<bool>)
    ensures !Nullary(lhs) ==> (r.Some? <==> fuel >= 1)
    decreases fuel
  {
    if fuel == 0 then None
    else match lhs
      case BeginAddToken => ActionEqualsAsWritten(rhs, BeginAddToken, fuel - 1)
      case EditPersistentToken(l) => Some(rhs.EditPersistentToken? && l == rhs.persistentToken)
      case UpdatePersistentToken(l) => Some(rhs.UpdatePersistentToken? && l == rhs.persistentToken)
      case MoveToken(lf, lt) => Some(rhs.MoveToken? && lf == rhs.fromIndex && lt == rhs.toIndex)
      case DeletePersistentToken(l) => Some(rhs.DeletePersistentToken? && l == rhs.persistentToken)
      case CopyPassword(l) => Some(rhs.CopyPassword? && l == rhs.password)
      case UpdateViewModel => ActionEqualsAsWritten(rhs, UpdateViewModel, fuel - 1)
  }

  /**
   * Comparing two nullary actions, equal or not, never returns: each call
   * makes another call on two nullary actions, however many are allowed.
   */
  lemma {:induction false} ActionEqualsAsWrittenDiverges(lhs: Action, rhs: Action, fuel: nat)
    requires Nullary(lhs) && Nullary(rhs)
    ensures ActionEqualsAsWritten(lhs, rhs, fuel) == None
    decreases fuel
  {
    if fuel > 0 {
      ActionEqualsAsWrittenDiverges(rhs, lhs, fuel - 1);
    }
  }

  /** The concrete instance: `BeginAddToken == BeginAddToken` does not return. */
  lemma BeginAddTokenNeverEqualsItself(fuel: nat)
    ensures ActionEqualsAsWritten(BeginAddToken, BeginAddToken, fuel) == None
  {
    ActionEqualsAsWrittenDiverges(BeginAddToken, BeginAddToken, fuel);
  }

  /**
   * The intended equality: the same case with equal payloads, and for the
   * nullary cases simply the same case.
   */
  function ActionEquals(lhs: Action, rhs: Action): (b: bool)
    ensures b <==> lhs == rhs
  {
    match lhs
    case BeginAddToken => rhs.BeginAddToken?
    case EditPersistentToken(l) => rhs.EditPersistentToken? && l == rhs.persistentToken
    case UpdatePersistentToken(l) => rhs.UpdatePersistentToken? && l == rhs.persistentToken
    case MoveToken(lf, lt) => rhs.MoveToken? && lf == rhs.fromIndex && lt == rhs.toIndex
    case DeletePersistentToken(l) => rhs.DeletePersistentToken? && l == rhs.persistentToken
    case CopyPassword(l) => rhs.CopyPassword? && l == rhs.password
    case UpdateViewModel => rhs.UpdateViewModel?
  }

  /**
   * Whenever one side carries a payload, the operator as written answers
   * within two calls, and its answer is the intended one.
   */
  lemma ActionEqualsAsWrittenAgrees(lhs: Action, rhs: Action, fuel: nat)
    requires !(Nullary(lhs) && Nullary(rhs)) && fuel >= 2
    ensures ActionEqualsAsWritten(lhs, rhs, fuel) == Some(ActionEquals(lhs, rhs))
  {
  }

  // ---------------------------------------------------------------------
  // Row equality
  // ---------------------------------------------------------------------

  /** The row equality operator: every field is compared except the delete action. */
  function RowEquals(a: RowModel, b: RowModel): (eq: bool)
    ensures eq <==> a.(deleteAction := b.deleteAction) == b
  {
    && a.name == b.name
    && a.issuer == b.issuer
    && a.password == b.password
    && a.showsButton == b.showsButton
    && ActionEquals(a.buttonAction, b.buttonAction)
    && ActionEquals(a.selectAction, b.selectAction)
    && ActionEquals(a.editAction, b.editAction)
    && a.identifier == b.identifier
  }

  /**
   * The actions a row compares all carry payloads, so for rows built by
   * `Init` the row equality as written returns, with the intended answer.
   */
  lemma RowActionsCompareAsWritten(p: PersistentToken, q: PersistentToken, pw: Option<string>, qw: Option<string>)
    ensures var a, b := Init(p, pw), Init(q, qw);
      && ActionEqualsAsWritten(a.buttonAction, b.buttonAction, 2) == Some(ActionEquals(a.buttonAction, b.buttonAction))
      && ActionEqualsAsWritten(a.selectAction, b.selectAction, 2) == Some(ActionEquals(a.selectAction, b.selectAction))
      && ActionEqualsAsWritten(a.editAction, b.editAction, 2) == Some(ActionEquals(a.editAction, b.editAction))
  {
  }

  /** Rows built from the same persistent token and password are equal. */
  lemma InitRowsEqual(p: PersistentToken, pw: Option<string>)
    ensures RowEquals(Init(p, pw), Init(p, pw))
  {
  }
}
