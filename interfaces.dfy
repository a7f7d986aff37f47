/** The records a page document is made of (src/app/common/interfaces.ts). */
module Interfaces {

  /** One card of the grid: its display name and the file name of its poster. */
  datatype ContentItem = ContentItem(name: string, posterImage: string)

  /** The `content-items` object of a page document. */
  datatype ContentItems = ContentItems(content: seq<ContentItem>)

  /** The `page` object of one fetched page. The two counts arrive as strings. */
  datatype PageItem = PageItem(
    title: string,
    contentItems: ContentItems,
    pageSizeRequested: string,
    totalContentItems: string)
}
