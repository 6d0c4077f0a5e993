/** The records of src/types/index.ts that the modelled code reads and writes. */
module Types {
  import opened Common

  /** The three optional text fields of a page; `Omit<Page, 'id'>` in the source. */
  datatype PageField = ImageUrl | Content | TextContent

  datatype PageBody = PageBody(imageUrl: Option<string>, content: Option<string>, textContent: Option<string>)
  {
    /** `{ ...page, [field]: value }` */
    function WithField(field: PageField, value: string): (b: PageBody)
      ensures b.Get(field) == Some(value)
      ensures forall f :: f != field ==> b.Get(f) == Get(f)
    {
      match field
      case ImageUrl => this.(imageUrl := Some(value))
      case Content => this.(content := Some(value))
      case TextContent => this.(textContent := Some(value))
    }

    function Get(field: PageField): Option<string> {
      match field
      case ImageUrl => imageUrl
      case Content => content
      case TextContent => textContent
    }
  }

  /** A page of a story: a stable numeric id and its body. */
  datatype Page = Page(id: int, imageUrl: Option<string>, content: Option<string>, textContent: Option<string>)
  {
    function Body(): PageBody {
      PageBody(imageUrl, content, textContent)
    }
  }

  function WithId(body: PageBody, id: int): (p: Page)
    ensures p.id == id && p.Body() == body
  {
    Page(id, body.imageUrl, body.content, body.textContent)
  }

  datatype Story = Story(
    id: int,
    title: string,
    author: string,
    coverImage: string,
    description: string,
    category: string,
    tags: seq<string>,
    likes: int,
    views: int,
    pages: seq<Page>)

  datatype AnimationStyle = Flip | Curl | Fold | Slide

  datatype FlipDirection = Forward | Backward

  /** Zoom is a JavaScript number; it is modelled as an exact real. */
  datatype FlipbookSettings = FlipbookSettings(
    autoFlip: bool,
    autoFlipInterval: int,
    soundOn: bool,
    showThumbnails: bool,
    zoomLevel: real,
    bookmarks: seq<int>,
    searchQuery: string,
    searchResults: seq<int>,
    currentSearchIndex: int,
    animationStyle: AnimationStyle)
}
