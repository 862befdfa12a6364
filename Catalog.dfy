/** The entities the product view works on. */
module Catalog {

  /** Milliseconds in a day: dates are instants in milliseconds, as JavaScript's `Date`. */
  const DayMs: int := 24 * 60 * 60 * 1000

  /** One product of the catalogue, as the listing endpoint returns it; `released`
      is the parsed release date and `price` an exact amount. */
  datatype Product = Product(uuid: string, name: string, brand: string, price: int, released: int, link: string)

  /** The pagination meta information of one fetched page. */
  datatype Pagination = Pagination(currentPage: int, pageCount: int, count: int)
}
