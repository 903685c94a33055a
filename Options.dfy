/** Optional values: `None` stands for JavaScript's `undefined` or `null`. */
module Options {

  datatype Option<T> = None | Some(value: T) {

    /** JavaScript's nullish coalescing `this ?? other`. */
    function OrElse(other: Option<T>): Option<T> {
      if Some? then this else other
    }

    /** `this ?? default` for a plain default value. */
    function GetOr(default: T): T {
      if Some? then value else default
    }
  }
}
