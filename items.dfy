/** The canonical free-game record both storefront normalisers produce and
    the storage diff compares, with the small value types around it. */
module Items {

  datatype Option<T> = None | Some(value: T)

  /** The outcome of an HTTP request whose body is `T`: any transport or
      parse error is `Failed`. */
  datatype Fetch<T> = Failed | Fetched(body: T)

  /** A point in time in milliseconds; the clock is always passed in. */
  type Timestamp = int

  const DayMs: int := 24 * 60 * 60 * 1000

  /** One free offer. `id` is `None` when the source left it undefined or
      null; `hasMeaningfulPrice` is `false` for Steam records, which do not
      set it. */
  datatype Item = Item(
    id: Option<string>,
    title: string,
    description: string,
    url: string,
    originalPrice: Option<string>,
    hasMeaningfulPrice: bool,
    startDate: Option<Timestamp>,
    endDate: Option<Timestamp>,
    image: Option<string>,
    platform: string,
    isActive: bool)

  /** A decimal digit, what `\d` matches in the source's patterns. */
  predicate IsDigit(c: char)
  {
    '0' <= c <= '9'
  }

  /** JavaScript truthiness of an optional string: present and non-empty. */
  predicate Truthy(s: Option<string>)
  {
    s.Some? && s.value != ""
  }

  /** An item takes part in change detection only when its id is truthy. */
  predicate Tracked(g: Item)
  {
    Truthy(g.id)
  }
}
