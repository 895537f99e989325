/** The "nothing here" value the engine uses for an empty hover, an empty
    animation slot and an absent clock reading. */
module Options {

  datatype Option<+T> = None | Some(value: T)

}
