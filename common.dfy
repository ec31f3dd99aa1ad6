/** Small shared vocabulary: an optional value, used wherever the game code
    holds a reference that may be null. */
module Common {

  datatype Option<+T> = None | Some(value: T)

}
