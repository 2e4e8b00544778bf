/**
 * The dock: one button per application, a running indicator on the open ones,
 * and a click rule that restores a minimized window or opens a closed one.
 */
module Dock {
  import opened Options
  import opened AppContext

  /** Which store operation a dock click dispatches, if any. */
  function ClickOp(apps: seq<App>, id: string): Option<Op> {
    match Find(apps, id)
    case None => None
    case Some(app) =>
      if app.isOpen && app.isMinimized then Some(RestoreOp(id))
      else if !app.isOpen then Some(OpenOp(id))
      else None
  }

  /**
   * `handleAppClick(id)`. A minimized open app is restored and a closed app
   * is opened; a click on an app that is open and not minimized changes
   * nothing (in particular it does not raise the window). Either way the app
   * ends up open, not minimized and at its old geometry.
   */
  function Click(apps: seq<App>, id: string): (r: seq<App>)
    ensures SameIds(apps, r) && OthersUnchanged(apps, r, id)
    ensures !HasId(apps, id) ==> r == apps
    ensures DistinctIds(apps) ==>
              forall i :: 0 <= i < |apps| && apps[i].id == id ==>
                && r[i].isOpen && !r[i].isMinimized && SameGeometry(r[i], apps[i])
                && (apps[i].isOpen && !apps[i].isMinimized ==> r == apps)
                && (apps[i].isOpen && apps[i].isMinimized ==> r == Restore(apps, id))
                && (!apps[i].isOpen ==> r == Open(apps, id))
                && (!apps[i].isOpen || apps[i].isMinimized ==> OnTop(r, i))
  {
    match ClickOp(apps, id)
    case None => apps
    case Some(op) => Apply(apps, op)
  }

  /** A dock click never lowers the highest z-index and keeps the store's invariant. */
  lemma ClickKeepsStoreInvariants(apps: seq<App>, id: string)
    ensures HighestZIndex(apps) <= HighestZIndex(Click(apps, id))
    ensures WellFormed(apps) ==> WellFormed(Click(apps, id))
  {
    match ClickOp(apps, id)
    case None =>
    case Some(op) =>
      ApplyNeverLowersHighest(apps, op);
      if WellFormed(apps) {
        ApplyPreservesWellFormed(apps, op);
      }
  }

  datatype DockItem = DockItem(id: string, content: ContentId, running: bool)

  /** The dock's buttons: one per record, in registry order, lit exactly when the app is open. */
  function DockItems(apps: seq<App>): (r: seq<DockItem>)
    ensures |r| == |apps|
    ensures forall i :: 0 <= i < |apps| ==>
              r[i].id == apps[i].id && r[i].content == apps[i].content && (r[i].running <==> apps[i].isOpen)
  {
    seq(|apps|, i requires 0 <= i < |apps| => DockItem(apps[i].id, apps[i].content, apps[i].isOpen))
  }

  /** After a dock click on a registered app, that app's button shows the running indicator. */
  lemma ClickLightsIndicator(apps: seq<App>, id: string, i: int)
    requires DistinctIds(apps) && 0 <= i < |apps| && apps[i].id == id
    ensures DockItems(Click(apps, id))[i].running
  {
  }
}
