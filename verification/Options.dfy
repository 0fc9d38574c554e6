/** An absent value: JavaScript's `undefined`, Python's `None`. */
module Options {

  datatype Option<+T> = None | Some(value: T) {

    /** `this ?? other`. */
    function Or(other: Option<T>): Option<T> {
      if None? then other else this
    }
  }
}
