/** `courseService`: the course list query (a page with no count) and the
    course CRUD operations over the `courses` table. */
module CourseService {
  import opened Wrappers
  import opened Query
  import opened KeyedStore
  import NumberFilter
  import CourseFilter
  import Listing
  import TableQuery

  /** A `courses` record without its `ID`; `Price` is kept as an integer. */
  datatype Course = Course(name: string, description: string, price: int, categoryId: nat, userId: nat)

  type Courses = Store<Course>

  function CourseRow(c: Keyed<Course>): (row: Row)
    ensures row.Keys == {"id", "name", "description", "price", "category_id", "user_id"}
    ensures row["user_id"] == Num(c.rec.userId)
  {
    map["id" := Num(c.id), "name" := Str(c.rec.name), "description" := Str(c.rec.description),
        "price" := Num(c.rec.price), "category_id" := Num(c.rec.categoryId), "user_id" := Num(c.rec.userId)]
  }

  /** `FindManyCourses`: defaults, then `Apply` (filter, order, offset and
      limit together), then one `Find`; there is no count. */
  function FindManyCourses(store: Courses, filter: CourseFilter.CourseFilterInput)
    : (r: Result<seq<Keyed<Course>>, Listing.ListError>)
    ensures var a := CourseFilter.Apply(CourseFilter.WithDefaults(filter));
            && (r.Failure? <==> !AllAccepted(a.clauses))
            && (r.Success? ==> r.value == Listing.FindPage(TableQuery.Rows(store), CourseRow, a.clauses, a.pagination))
    ensures r.Failure? ==> r.error == Listing.QueryRejected
    ensures r.Success? ==> |r.value| <= CourseFilter.WithDefaults(filter).paging.take
  {
    var a := CourseFilter.Apply(CourseFilter.WithDefaults(filter));
    if !AllAccepted(a.clauses) then Failure(Listing.QueryRejected)
    else Success(Listing.FindPage(TableQuery.Rows(store), CourseRow, a.clauses, a.pagination))
  }

  /** Every listed course is stored and its `user_id` meets the filter. */
  lemma FindManyCoursesMeaning(store: Courses, filter: CourseFilter.CourseFilterInput)
    requires FindManyCourses(store, filter).Success?
    ensures var f := CourseFilter.WithDefaults(filter);
            forall x :: x in FindManyCourses(store, filter).value ==>
              x.id in store && store[x.id] == x.rec && NumberFilter.FieldMeets("user_id", f.userId, CourseRow(x))
  {
    var f := CourseFilter.WithDefaults(filter);
    forall x | x in FindManyCourses(store, filter).value
      ensures NumberFilter.FieldMeets("user_id", f.userId, CourseRow(x))
    {
      CourseFilter.ApplyMeaning(f, CourseRow(x));
    }
  }

  /** `CourseCreateInput` has every field of the record. */
  datatype CourseCreateInput = CourseCreateInput(name: string, description: string, price: int, categoryId: nat, userId: nat)

  /** `CreateCourse`: insert the copied record. */
  function CreateCourse(store: Courses, input: CourseCreateInput): (s: Step<Course>)
    ensures s.result.Success?
    ensures s.result.value.id !in store && s.store == store[s.result.value.id := s.result.value.rec]
    ensures var c := s.result.value.rec;
            && c.name == input.name && c.description == input.description && c.price == input.price
            && c.categoryId == input.categoryId && c.userId == input.userId
  {
    var rec := Course(input.name, input.description, input.price, input.categoryId, input.userId);
    Insert(store, rec)
  }
}
