/** The externally visible effects of the activity, recorded in the order they
    happen: starting another app, the blocking sleep, a toast, the action-bar
    title and the status-dot colour. */
module Effects {
  import opened Health

  datatype Effect =
    | Launch(packageName: string)
    | Sleep(ms: nat)
    | Toast(message: string)
    | SetTitle(title: string)
    | SetDot(color: DotColor)
}
