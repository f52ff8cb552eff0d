/**
 * The row model of the older token list (Authenticator/Classes/TokenRowModel.swift):
 * what a row shows for a keychain token object, fixed when the row is made.
 *
 * The older token object is described here by what the row reads from it:
 * its name, issuer and type, and the password the OneTimePassword library
 * generates for it, which may be missing.
 */
module LegacyTokenRowModel {
  import opened Wrappers
  import opened Tokens
  import TokenRowModel

  datatype TokenKind = CounterKind | TimerKind

  datatype LegacyToken = LegacyToken(name: string, issuer: string, kind: TokenKind, password: Option<string>)

  datatype RowModel = RowModel(name: string, issuer: string, password: string, showsButton: bool)

  /**
   * `init(token:)`: name and issuer as they are, the password or the empty
   * string when there is none, and the refresh button only on counter tokens.
   */
  function Init(token: LegacyToken): (r: RowModel)
    ensures r.name == token.name && r.issuer == token.issuer
    ensures token.password.Some? ==> r.password == token.password.value
    ensures token.password.None? ==> r.password == ""
    ensures r.showsButton <==> token.kind == CounterKind
  {
    RowModel(token.name, token.issuer, token.password.GetOr(""), token.kind.CounterKind?)
  }

  /** The older token a newer persistent token corresponds to. */
  function AsLegacy(p: PersistentToken, password: Option<string>): (t: LegacyToken)
    ensures t.name == p.token.name && t.issuer == p.token.issuer && t.password == password
    ensures t.kind == CounterKind <==> p.token.generator.factor.Counter?
  {
    LegacyToken(p.token.name, p.token.issuer,
      if p.token.generator.factor.Counter? then CounterKind else TimerKind, password)
  }

  /** The older row shows exactly what the newer row shows for the same token. */
  lemma AgreesWithNewerRow(p: PersistentToken, password: Option<string>)
    ensures var legacy := Init(AsLegacy(p, password));
      var newer := TokenRowModel.Init(p, password);
      legacy.name == newer.name && legacy.issuer == newer.issuer
      && legacy.password == newer.password && legacy.showsButton == newer.showsButton
  {
  }
}
