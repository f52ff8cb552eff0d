/**
 * The menu component (Authenticator/Source/Menu.swift): the info list with at
 * most one child screen over it, either an info page or the display options,
 * and the translation of the children's effects into the menu's own.
 *
 * An info page is read from a file in the app bundle. The bundle lookup is
 * outside the model: the path it finds, if any, is passed in, and a missing
 * file is the load failure the menu reports.
 */
module Menu {
  import opened Wrappers
  import InfoList
  import DisplayOptions

  /** An info page: its title and the location of its HTML file. */
  datatype Info = Info(title: string, url: string)

  datatype InfoEffect = InfoDone | OpenURL(url: string)

  datatype InfoViewModel = InfoViewModel(title: string, url: string)

  /** `Info.backupInfo()`: the "Backups" page, when its file is found. */
  function BackupInfo(path: Option<string>): (r: Option<Info>)
    ensures r.Some? <==> path.Some?
    ensures r.Some? ==> r.value == Info("Backups", path.value)
  {
    match path
    case None => None
    case Some(p) => Some(Info("Backups", p))
  }

  /** `Info.licenseInfo()`: the "Acknowledgements" page, when its file is found. */
  function LicenseInfo(path: Option<string>): (r: Option<Info>)
    ensures r.Some? <==> path.Some?
    ensures r.Some? ==> r.value == Info("Acknowledgements", path.value)
  {
    match path
    case None => None
    case Some(p) => Some(Info("Acknowledgements", p))
  }

  datatype Child = NoChild | InfoChild(info: Info) | DisplayOptionsChild

  datatype Menu = Menu(child: Child)

  datatype Action =
    | DismissInfo
    | DismissDisplayOptions
    | InfoListEffect(infoListEffect: InfoList.Effect)
    | InfoPageEffect(infoEffect: InfoEffect)
    | DisplayOptionsEffect(displayOptionsEffect: DisplayOptions.Effect)

  datatype Effect =
    | Done
    | ShowErrorMessage(message: string)
    | ShowSuccessMessage(message: string)
    | OpenURL(url: string)
    | SetDigitGroupSize(digitGroupSize: int)

  datatype Error = BadChildState

  /** The menu after an update, the effect it returned, and the error it threw instead, if any. */
  datatype Outcome = Outcome(menu: Menu, effect: Option<Effect>, thrown: Option<Error>)

  /** `init()`: no child. */
  function Init(): (m: Menu)
    ensures m.child.NoChild?
  {
    Menu(NoChild)
  }

  /** `init(info:)`: the info page is already open. */
  function InitWithInfo(info: Info): (m: Menu)
    ensures m.child == InfoChild(info)
  {
    Menu(InfoChild(info))
  }

  // ---------------------------------------------------------------------
  // Child transitions
  // ---------------------------------------------------------------------

  /** The result of a child transition: the new menu, or the error thrown with the menu unchanged. */
  datatype Transition = Moved(menu: Menu) | Refused(error: Error)

  /** `showInfo`: only over no child. */
  function ShowInfo(m: Menu, info: Info): (r: Transition)
    ensures r.Moved? <==> m.child.NoChild?
    ensures r.Moved? ==> r.menu.child == InfoChild(info)
  {
    if m.child.NoChild? then Moved(Menu(InfoChild(info))) else Refused(BadChildState)
  }

  /** `dismissInfo`: only while an info page is open, back to no child. */
  function DismissInfoPage(m: Menu): (r: Transition)
    ensures r.Moved? <==> m.child.InfoChild?
    ensures r.Moved? ==> r.menu.child.NoChild?
  {
    if m.child.InfoChild? then Moved(Menu(NoChild)) else Refused(BadChildState)
  }

  /** `showDisplayOptions`: only over no child. */
  function ShowDisplayOptions(m: Menu): (r: Transition)
    ensures r.Moved? <==> m.child.NoChild?
    ensures r.Moved? ==> r.menu.child.DisplayOptionsChild?
  {
    if m.child.NoChild? then Moved(Menu(DisplayOptionsChild)) else Refused(BadChildState)
  }

  /** `dismissDisplayOptions`: only while the display options are open, back to no child. */
  function DismissDisplayOptionsPage(m: Menu): (r: Transition)
    ensures r.Moved? <==> m.child.DisplayOptionsChild?
    ensures r.Moved? ==> r.menu.child.NoChild?
  {
    if m.child.DisplayOptionsChild? then Moved(Menu(NoChild)) else Refused(BadChildState)
  }

  /** A transition followed by `return nil`: a refusal propagates as the thrown error. */
  function AfterTransition(m: Menu, t: Transition): (r: Outcome)
    ensures r.effect.None?
    ensures t.Moved? ==> r.menu == t.menu && r.thrown.None?
    ensures t.Refused? ==> r.menu == m && r.thrown == Some(t.error)
  {
    match t
    case Moved(next) => Outcome(next, None, None)
    case Refused(e) => Outcome(m, None, Some(e))
  }

  // ---------------------------------------------------------------------
  // Update
  // ---------------------------------------------------------------------

  /**
   * `handleInfoListEffect`: open the requested page, or report that its file
   * could not be loaded, or pass on Done.
   */
  function HandleInfoListEffect(m: Menu, effect: InfoList.Effect, backupPath: Option<string>, licensePath: Option<string>)
    : (r: Outcome)
    ensures r.thrown.Some? ==> r.menu == m && r.effect.None?
    ensures effect.Done? ==> r == Outcome(m, Some(Done), None)
    ensures effect.ShowBackupInfo? && backupPath.None? ==>
      r == Outcome(m, Some(ShowErrorMessage("Failed to load backup info.")), None)
    ensures effect.ShowLicenseInfo? && licensePath.None? ==>
      r == Outcome(m, Some(ShowErrorMessage("Failed to load acknowledgements.")), None)
    ensures effect.ShowBackupInfo? && backupPath.Some? ==> r == AfterTransition(m, ShowInfo(m, BackupInfo(backupPath).value))
    ensures effect.ShowLicenseInfo? && licensePath.Some? ==> r == AfterTransition(m, ShowInfo(m, LicenseInfo(licensePath).value))
    ensures effect.ShowDisplayOptions? ==> r == AfterTransition(m, ShowDisplayOptions(m))
  {
    match effect
    case ShowDisplayOptions => AfterTransition(m, ShowDisplayOptions(m))
    case ShowBackupInfo =>
      (match BackupInfo(backupPath)
       case None => Outcome(m, Some(ShowErrorMessage("Failed to load backup info.")), None)
       case Some(info) => AfterTransition(m, ShowInfo(m, info)))
    case ShowLicenseInfo =>
      (match LicenseInfo(licensePath)
       case None => Outcome(m, Some(ShowErrorMessage("Failed to load acknowledgements.")), None)
       case Some(info) => AfterTransition(m, ShowInfo(m, info)))
    case Done => Outcome(m, Some(Done), None)
  }

  /** `handleInfoEffect`: an info page's effects become the menu's, one for one. */
  function HandleInfoEffect(effect: InfoEffect): (r: Effect)
    ensures effect.InfoDone? <==> r.Done?
    ensures effect.OpenURL? <==> r.OpenURL?
    ensures effect.OpenURL? ==> r.url == effect.url
  {
    match effect
    case InfoDone => Done
    case OpenURL(url) => Effect.OpenURL(url)
  }

  /** `handleDisplayOptionsEffect`: the display options' effects become the menu's, one for one. */
  function HandleDisplayOptionsEffect(effect: DisplayOptions.Effect): (r: Effect)
    ensures effect.Done? <==> r.Done?
    ensures effect.SetDigitGroupSize? <==> r.SetDigitGroupSize?
    ensures effect.SetDigitGroupSize? ==> r.digitGroupSize == effect.digitGroupSize
  {
    match effect
    case Done => Done
    case SetDigitGroupSize(size) => SetDigitGroupSize(size)
  }

  /**
   * `update(with:)`. A dismissal returns no effect; forwarded child effects
   * never change the child; a refused transition throws `badChildState` and
   * leaves the menu as it was.
   */
  function Update(m: Menu, action: Action, backupPath: Option<string>, licensePath: Option<string>): (r: Outcome)
    ensures r.thrown.Some? ==> r.menu == m && r.effect.None? && r.thrown == Some(BadChildState)
    ensures action.DismissInfo? ==> r.effect.None? && (r.thrown.None? <==> m.child.InfoChild?)
    ensures action.DismissInfo? && r.thrown.None? ==> r.menu.child.NoChild?
    ensures action.DismissDisplayOptions? ==> r.effect.None? && (r.thrown.None? <==> m.child.DisplayOptionsChild?)
    ensures action.DismissDisplayOptions? && r.thrown.None? ==> r.menu.child.NoChild?
    ensures action.InfoListEffect? ==> r == HandleInfoListEffect(m, action.infoListEffect, backupPath, licensePath)
    ensures action.InfoPageEffect? ==> r == Outcome(m, Some(HandleInfoEffect(action.infoEffect)), None)
    ensures action.DisplayOptionsEffect? ==>
      r == Outcome(m, Some(HandleDisplayOptionsEffect(action.displayOptionsEffect)), None)
  {
    match action
    case DismissInfo => AfterTransition(m, DismissInfoPage(m))
    case DismissDisplayOptions => AfterTransition(m, DismissDisplayOptionsPage(m))
    case InfoListEffect(effect) => HandleInfoListEffect(m, effect, backupPath, licensePath)
    case InfoPageEffect(effect) => Outcome(m, Some(HandleInfoEffect(effect)), None)
    case DisplayOptionsEffect(effect) => Outcome(m, Some(HandleDisplayOptionsEffect(effect)), None)
  }

  /**
   * Any update either throws and changes nothing, or returns with the child
   * moved only along the allowed paths: from no child to a page, or from a
   * page back to no child.
   */
  lemma UpdateMovesAlongAllowedPaths(m: Menu, action: Action, backupPath: Option<string>, licensePath: Option<string>)
    ensures var r := Update(m, action, backupPath, licensePath);
      r.menu.child == m.child || m.child.NoChild? != r.menu.child.NoChild?
    ensures var r := Update(m, action, backupPath, licensePath);
      r.menu.child.InfoChild? && !m.child.InfoChild? ==>
        action.InfoListEffect? && (Some(r.menu.child.info) == BackupInfo(backupPath)
                                   || Some(r.menu.child.info) == LicenseInfo(licensePath))
  {
  }

  /** Opening the backup page and dismissing it returns to the menu as it was, with no effects. */
  lemma ShowThenDismissInfo(path: string)
    ensures var shown := Update(Init(), InfoListEffect(InfoList.ShowBackupInfo), Some(path), None);
      && shown.thrown.None? && shown.effect.None?
      && shown.menu.child == InfoChild(Info("Backups", path))
      && Update(shown.menu, DismissInfo, Some(path), None) == Outcome(Init(), None, None)
  {
  }

  // ---------------------------------------------------------------------
  // View model
  // ---------------------------------------------------------------------

  datatype ChildViewModel<H> =
    | NoChildView
    | InfoView(info: InfoViewModel)
    | DisplayOptionsView(displayOptions: DisplayOptions.ViewModel<H>)

  datatype ViewModel<H> = ViewModel(infoList: InfoList.ViewModel, child: ChildViewModel<H>)

  /** `Child.viewModel(digitGroupSize:)`: the child's view model, case for case. */
  function ChildViewModelOf<H>(child: Child, digitGroupSize: int): (r: ChildViewModel<H>)
    ensures child.NoChild? <==> r.NoChildView?
    ensures child.InfoChild? <==> r.InfoView?
    ensures child.InfoChild? ==> r.info == InfoViewModel(child.info.title, child.info.url)
    ensures child.DisplayOptionsChild? <==> r.DisplayOptionsView?
    ensures child.DisplayOptionsChild? ==> r.displayOptions == DisplayOptions.ViewModelOf(digitGroupSize)
  {
    match child
    case NoChild => NoChildView
    case InfoChild(info) => InfoView(InfoViewModel(info.title, info.url))
    case DisplayOptionsChild => DisplayOptionsView(DisplayOptions.ViewModelOf(digitGroupSize))
  }

  /** `viewModel(digitGroupSize:)`: the fixed info list and the child's view model. */
  function ViewModelOf<H>(m: Menu, digitGroupSize: int): (vm: ViewModel<H>)
    ensures vm.infoList == InfoList.ViewModelOf()
    ensures vm.child == ChildViewModelOf(m.child, digitGroupSize)
  {
    ViewModel(InfoList.ViewModelOf(), ChildViewModelOf(m.child, digitGroupSize))
  }
}
