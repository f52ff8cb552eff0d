/**
 * The info list of the menu (Authenticator/Source/InfoList.swift): a fixed
 * view model of two rows, each with a call to action that must not wrap
 * between its words.
 */
module InfoList {
  /**
   * The info list's effects. `ShowDisplayOptions` is not among the cases
   * InfoList.swift declares, but the menu's handler switches over it, so it
   * is part of the effect type the menu receives.
   */
  datatype Effect = ShowBackupInfo | ShowLicenseInfo | Done | ShowDisplayOptions

  datatype RowModel = RowModel(title: string, description: string, callToAction: string, action: Effect)

  datatype ViewModel = ViewModel(title: string, rowModels: seq<RowModel>)

  const NoBreakSpace: char := '\U{00A0}'

  /** Every ordinary space becomes a no-break space; every other character stays. */
  function NonBreaking(s: string): (r: string)
    ensures |r| == |s|
    ensures forall k :: 0 <= k < |s| ==> r[k] == (if s[k] == ' ' then NoBreakSpace else s[k])
    ensures ' ' !in r
  {
    seq(|s|, k requires 0 <= k < |s| => if s[k] == ' ' then NoBreakSpace else s[k])
  }

  /** Making a string non-breaking twice changes nothing more: the result is already free of spaces. */
  lemma NonBreakingIdempotent(s: string)
    ensures NonBreaking(NonBreaking(s)) == NonBreaking(s)
  {
  }

  const BackupDescription: string :=
    "For security reasons, tokens will be stored only on this device, and will not be included in iCloud or unencrypted backups."

  const LicenseDescription: string := "Authenticator makes use of several third party libraries."

  /**
   * `viewModel`: titled "Info", the backups row then the open source row,
   * each call to action free of ordinary spaces so it cannot wrap.
   */
  function ViewModelOf(): (vm: ViewModel)
    ensures vm.title == "Info"
    ensures |vm.rowModels| == 2
    ensures vm.rowModels[0].title == "Backups" && vm.rowModels[0].action == ShowBackupInfo
    ensures vm.rowModels[0].description == BackupDescription
    ensures vm.rowModels[0].callToAction == NonBreaking("Learn More →")
    ensures vm.rowModels[1].title == "Open Source" && vm.rowModels[1].action == ShowLicenseInfo
    ensures vm.rowModels[1].description == LicenseDescription
    ensures vm.rowModels[1].callToAction == NonBreaking("View Acknowledgements →")
    ensures forall k :: 0 <= k < |vm.rowModels| ==> ' ' !in vm.rowModels[k].callToAction
    ensures forall k :: 0 <= k < |vm.rowModels| ==> !vm.rowModels[k].action.Done? && !vm.rowModels[k].action.ShowDisplayOptions?
  {
    ViewModel("Info", [
      RowModel("Backups", BackupDescription, NonBreaking("Learn More →"), ShowBackupInfo),
      RowModel("Open Source", LicenseDescription, NonBreaking("View Acknowledgements →"), ShowLicenseInfo)
    ])
  }

  /** The calls to action read as their literals with each space made non-breaking. */
  lemma CallsToActionSpelledOut()
    ensures ViewModelOf().rowModels[0].callToAction == "Learn\U{00A0}More\U{00A0}→"
    ensures ViewModelOf().rowModels[1].callToAction == "View\U{00A0}Acknowledgements\U{00A0}→"
  {
    var a := NonBreaking("Learn More →");
    assert a[5] == NoBreakSpace && a[10] == NoBreakSpace;
    assert a == "Learn\U{00A0}More\U{00A0}→";
    var b := NonBreaking("View Acknowledgements →");
    assert b[4] == NoBreakSpace && b[21] == NoBreakSpace;
    assert b == "View\U{00A0}Acknowledgements\U{00A0}→";
  }
}
