/**
 * The records the page and its components share: one career entry (an
 * "attraction"), the filter settings and the sort option.
 */
module Career {
  import opened Optional

  /**
   * One career entry, restricted to the fields the page, the map and the card
   * read. `startDate` stands for the time value of the entry's ISO start date
   * (milliseconds since the epoch), which the source obtains with `new Date`.
   */
  datatype Attraction = Attraction(
    id: string,
    name: string,
    company: string,
    location: string,
    category: string,
    startDate: int,
    duration: string,
    image: string,
    achievements: seq<string>)

  /** The page's filter settings; `minRating` and `skillFilter` are carried but never read. */
  datatype FilterState = FilterState(
    query: string,
    minRating: real,
    category: string,
    skillFilter: Option<string>)

  /** The two options of the sort selector. */
  datatype SortOption = Chronological | ByName

  /** The category selector's value that disables category filtering. */
  const AllCategories: string := "all"
}
