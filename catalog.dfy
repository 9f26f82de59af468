/** The artwork record served by the catalog endpoint, reduced to the fields the front end reads. */
module Catalog {
  import opened Wrappers

  /** `year` is kept as text: the catalog serves it as a string and the gallery runs `parseInt` on it. */
  datatype Artwork = Artwork(
    id: int,
    title: string,
    artist: string,
    year: string,
    category: string,
    description: Option<string>)
}
