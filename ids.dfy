/** Keys shared by the scheduling and the teachers' modules. */
module Ids {
  type TeacherId = nat
  /** A lesson model, standing for its ContentType key. */
  type LessonType = nat
}
