/** `courseController`: creating a course. Finding, updating and deleting
    one course are `Http.FindById`, `Http.UpdateById` and `Http.DeleteById`
    with the entity name "course". */
module CourseController {
  import opened Wrappers
  import opened KeyedStore
  import opened Http
  import CourseService

  /** `CreateCourse`: bind the body, create. The model has no failure after
      binding; the database's foreign keys are not part of it. */
  function CreateCourse(store: CourseService.Courses, body: Option<CourseService.CourseCreateInput>)
    : (x: Exchange<CourseService.Course, Keyed<CourseService.Course>>)
    ensures x.reply.Reply?
    ensures body.None? <==> x == Exchange(store, InvalidParams())
    ensures body.Some? ==>
              var input := body.value;
              && x.reply.status == StatusCreated && x.reply.message == Text("Course created successfully")
              && x.reply.data.Some? && x.reply.data.value.id !in store
              && x.reply.data.value.rec
                 == CourseService.Course(input.name, input.description, input.price, input.categoryId, input.userId)
              && x.store == store[x.reply.data.value.id := x.reply.data.value.rec]
  {
    match body
    case None => Exchange(store, InvalidParams())
    case Some(input) => StepReply(CourseService.CreateCourse(store, input), StatusCreated, "Course created successfully")
  }
}
