/** The usual optional value: `None` stands for JavaScript's `undefined`, a
    failed read or a search that found nothing. */
module Options {

  datatype Option<+T> = None | Some(value: T)

}
