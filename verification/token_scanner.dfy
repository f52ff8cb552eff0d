/**
 * The QR-code scanner component (Authenticator/Source/TokenScanner.swift):
 * it keeps scanning until a scanned text parses as a token, and turns what
 * the camera reports into effects for its parent.
 *
 * Parsing a scanned text (`URL(string:)` then the OneTimePassword library's
 * `Token(url:)`) is outside the model and passed in as `parse`. A capture
 * error is kept only as its description.
 */
module TokenScanner {
  import opened Wrappers
  import opened Tokens

  datatype Scanner = Scanner(tokenFound: bool)

  datatype ViewModel = ViewModel(isScanning: bool)

  datatype Action =
    | Cancel
    | BeginManualTokenEntry
    | ScannerDecodedText(text: string)
    | ScannerError(error: string)

  datatype Effect =
    | Cancel
    | BeginManualTokenEntry
    | SaveNewToken(token: Token)
    | ShowErrorMessage(message: string)

  /** `init()`: nothing found yet. */
  function Init(): (s: Scanner)
    ensures ViewModelOf(s).isScanning
  {
    Scanner(false)
  }

  /** `viewModel`: the camera scans until a token has been found. */
  function ViewModelOf(s: Scanner): (vm: ViewModel)
    ensures vm.isScanning <==> !s.tokenFound
  {
    ViewModel(!s.tokenFound)
  }

  /**
   * `update(_:)`. Every action produces an effect. Only a scanned text that
   * parses changes the state, ending the scan and saving the token; text
   * that does not parse and capture errors are reported and scanning goes
   * on.
   */
  function Update(s: Scanner, action: Action, parse: string -> Option<Token>): (r: (Scanner, Option<Effect>))
    ensures r.1.Some?
    ensures action.Cancel? ==> r == (s, Some(Effect.Cancel))
    ensures action.BeginManualTokenEntry? ==> r == (s, Some(Effect.BeginManualTokenEntry))
    ensures action.ScannerDecodedText? && parse(action.text).None? ==> r == (s, Some(ShowErrorMessage("Invalid Token")))
    ensures action.ScannerDecodedText? && parse(action.text).Some? ==>
      r == (Scanner(true), Some(SaveNewToken(parse(action.text).value)))
    ensures action.ScannerError? ==> r == (s, Some(ShowErrorMessage("Capture Failed")))
    ensures r.0.tokenFound <==> s.tokenFound || r.1.value.SaveNewToken?
  {
    match action
    case Cancel => (s, Some(Effect.Cancel))
    case BeginManualTokenEntry => (s, Some(Effect.BeginManualTokenEntry))
    case ScannerDecodedText(text) =>
      (match parse(text)
       case None => (s, Some(ShowErrorMessage("Invalid Token")))
       case Some(token) => (Scanner(true), Some(SaveNewToken(token))))
    case ScannerError(_) => (s, Some(ShowErrorMessage("Capture Failed")))
  }

  /** Feed a sequence of actions through the scanner: the final state and the effect of each action. */
  function Run(s: Scanner, actions: seq<Action>, parse: string -> Option<Token>): (r: (Scanner, seq<Option<Effect>>))
    ensures |r.1| == |actions|
    decreases |actions|
  {
    if |actions| == 0 then (s, [])
    else
      var step := Update(s, actions[0], parse);
      var rest := Run(step.0, actions[1..], parse);
      (rest.0, [step.1] + rest.1)
  }

  /** Whether an action is a scanned text that parses as a token. */
  predicate Parses(action: Action, parse: string -> Option<Token>) {
    action.ScannerDecodedText? && parse(action.text).Some?
  }

  /**
   * Scanning stops for good: a scanner that has found a token has still found
   * one after any further actions; one that has not finds one exactly when
   * some scanned text parses.
   */
  lemma {:induction false} TokenFoundIsMonotone(s: Scanner, actions: seq<Action>, parse: string -> Option<Token>)
    ensures Run(s, actions, parse).0.tokenFound <==>
      s.tokenFound || exists k :: 0 <= k < |actions| && Parses(actions[k], parse)
    decreases |actions|
  {
    if |actions| > 0 {
      TokenFoundIsMonotone(Update(s, actions[0], parse).0, actions[1..], parse);
      if exists k :: 0 <= k < |actions| && Parses(actions[k], parse) {
        var k :| 0 <= k < |actions| && Parses(actions[k], parse);
        if k > 0 {
          assert actions[1..][k - 1] == actions[k];
        }
      }
      if exists k :: 0 <= k < |actions[1..]| && Parses(actions[1..][k], parse) {
        var k :| 0 <= k < |actions[1..]| && Parses(actions[1..][k], parse);
        assert actions[k + 1] == actions[1..][k];
      }
    }
  }
}
