/** The composers' key handler: Enter sends, Shift+Enter does not. */
module Keyboard {

  predicate IsSendKey(key: string, shiftKey: bool) {
    key == "Enter" && !shiftKey
  }
}
