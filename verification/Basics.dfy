/** What several parts of the model share. */
module Basics {
  datatype Option<+T> = None | Some(value: T)

  function Min(x: nat, y: nat): nat { if x <= y then x else y }
}
