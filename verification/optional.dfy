/** The optional value used wherever the scraper returns `None` or an absent element. */
module Optional {

  datatype Option<T> = None | Some(value: T)
}
