/** Values shared by every page model: optional values and the browser side
    effects a handler asks for. A handler that would call `router.push` or
    `alert` instead returns the corresponding effects, in order. */
module Ui {

  datatype Option<+T> = None | Some(value: T)

  /** What an event handler asks the browser to do. `console.log` calls are
      not modelled. */
  datatype Effect =
    | Navigate(path: string)   // router.push(path)
    | Alert(message: string)   // window.alert(message)
    | Download(content: string) // a file handed to the browser's download

  /** No effect in the list changes the page. */
  predicate NoNavigation(effects: seq<Effect>)
  {
    forall i :: 0 <= i < |effects| ==> !effects[i].Navigate?
  }
}
