/**
 * The protocol-buffer messages the controllers bind and the services stamp. The message
 * objects a service changes in place are classes; the controllers see their values.
 */
module Api {
  import opened Wrappers

  datatype Timestamp = Timestamp(seconds: int, nanos: int)

  /** One reading of time.Now(): Unix seconds and the nanosecond within that second. */
  datatype Instant = Instant(unix: int, nanosecond: int)

  /**
   * The timestamp the services build: Seconds from one call of time.Now() and Nanos from a
   * second, separate call.
   */
  function Now(first: Instant, second: Instant): Timestamp
  {
    Timestamp(first.unix, second.nanosecond)
  }

  datatype CategoryData = CategoryData(
    id: string, name: string, description: string, createdAt: Option<Timestamp>, updatedAt: Option<Timestamp>)

  datatype BookData = BookData(
    id: string, title: string, author: string, categoryId: string, description: string,
    createdAt: Option<Timestamp>, updatedAt: Option<Timestamp>)

  /** A Category message that a service updates field by field. */
  class Category {
    var id: string
    var name: string
    var description: string
    var createdAt: Option<Timestamp>
    var updatedAt: Option<Timestamp>

    function Data(): CategoryData
      reads this
    {
      CategoryData(id, name, description, createdAt, updatedAt)
    }

    constructor (d: CategoryData)
      ensures Data() == d
    {
      id, name, description, createdAt, updatedAt := d.id, d.name, d.description, d.createdAt, d.updatedAt;
    }
  }

  /** A Book message that a service updates field by field. */
  class Book {
    var id: string
    var title: string
    var author: string
    var categoryId: string
    var description: string
    var createdAt: Option<Timestamp>
    var updatedAt: Option<Timestamp>

    function Data(): BookData
      reads this
    {
      BookData(id, title, author, categoryId, description, createdAt, updatedAt)
    }

    constructor (d: BookData)
      ensures Data() == d
    {
      id, title, author, categoryId, description := d.id, d.title, d.author, d.categoryId, d.description;
      createdAt, updatedAt := d.createdAt, d.updatedAt;
    }
  }

  datatype GetCategoryRequest = GetCategoryRequest(categoryId: string)
  datatype ListCategoriesRequest = ListCategoriesRequest   // the controller passes a nil request
  datatype CreateCategoryRequest = CreateCategoryRequest(category: Option<CategoryData>)
  datatype UpdateCategoryRequest = UpdateCategoryRequest(category: Option<CategoryData>)
  datatype DeleteCategoryRequest = DeleteCategoryRequest(categoryId: string)

  datatype GetBookRequest = GetBookRequest(bookId: string)
  datatype ListBooksRequest = ListBooksRequest             // the controller passes a nil request
  datatype CreateBookRequest = CreateBookRequest(book: Option<BookData>)
  datatype UpdateBookRequest = UpdateBookRequest(book: Option<BookData>)
  datatype DeleteBookRequest = DeleteBookRequest(bookId: string)
}
