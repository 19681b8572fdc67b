/**
 * The SwiftData model context, as the views use it: one ordered collection
 * per record kind.  Fetching returns the collection; inserting appends;
 * deleting removes the object.
 */
module Context {
  import opened Records

  class ModelContext {
    var tasks: seq<TaskRecord>
    var classes: seq<ClassRecord>
    var exams: seq<ExamRecord>
    var otherEvents: seq<OtherEventRecord>
    var streaks: seq<StreakRecord>

    constructor ()
      ensures tasks == [] && classes == [] && exams == []
      ensures otherEvents == [] && streaks == []
    {
      tasks, classes, exams, otherEvents, streaks := [], [], [], [], [];
    }
  }
}
