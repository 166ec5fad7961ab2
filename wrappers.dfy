/** The optional value the bot's helpers return where Python returns `None`. */
module Wrappers {

  datatype Option<+T> = None | Some(value: T)
}
