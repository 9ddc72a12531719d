/** An optional value: `None` stands for JavaScript's `null`/`undefined`
    (an attribute that `getAttribute` does not find, a marker property never set). */
module Options {

  datatype Option<+T> = None | Some(value: T)

}
