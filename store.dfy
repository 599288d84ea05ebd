/** The persistence boundary: the VideoInfo and DownloadTask tables and
    the task queue, held in memory. Saves always succeed. Every save of a
    task record is also appended to a ghost log, so that the order of the
    values written can be stated. */
module Store {
  import opened Common
  import opened VideoModels
  import opened TaskModels

  class Database {
    var videos: map<string, VideoInfo>
    var tasks: map<TaskId, DownloadTask>
    /** The next task id to hand out; every id below it has been used. */
    var nextId: TaskId
    /** Task ids handed to the background queue (`.delay`), in order. */
    var queue: seq<TaskId>
    /** Every task record saved, in order. */
    ghost var saves: seq<DownloadTask>

    ghost predicate Valid()
      reads this
    {
      && (forall id :: id in tasks ==> id < nextId && tasks[id].taskId == id)
      && (forall k :: k in videos ==> videos[k].youtubeId == k)
    }

    constructor ()
      ensures Valid()
      ensures videos == map[] && tasks == map[] && queue == [] && saves == []
    {
      videos := map[];
      tasks := map[];
      nextId := 0;
      queue := [];
      saves := [];
    }

    /** `task.save()` of a record that exists. */
    method Save(t: DownloadTask)
      requires Valid() && t.taskId in tasks
      modifies this
      ensures Valid()
      ensures tasks == old(tasks)[t.taskId := t]
      ensures saves == old(saves) + [t]
      ensures videos == old(videos) && nextId == old(nextId) && queue == old(queue)
    {
      tasks := tasks[t.taskId := t];
      saves := saves + [t];
    }

    /** `DownloadTask.objects.create(...)`: a new record under a fresh id. */
    method Create(youtubeId: string, start: int, end: int, quality: string, now: int) returns (id: TaskId)
      requires Valid()
      modifies this
      ensures Valid()
      ensures id !in old(tasks)
      ensures tasks == old(tasks)[id := NewTask(id, youtubeId, start, end, quality, now)]
      ensures saves == old(saves) + [NewTask(id, youtubeId, start, end, quality, now)]
      ensures videos == old(videos) && queue == old(queue)
    {
      id := nextId;
      nextId := nextId + 1;
      var t := NewTask(id, youtubeId, start, end, quality, now);
      tasks := tasks[id := t];
      saves := saves + [t];
    }

    /** `VideoInfo.objects.update_or_create(youtube_id=...)`: the row for
        the id is replaced (or created) as a whole. */
    method Upsert(v: VideoInfo)
      requires Valid()
      modifies this
      ensures Valid()
      ensures videos == old(videos)[v.youtubeId := v]
      ensures tasks == old(tasks) && nextId == old(nextId) && queue == old(queue) && saves == old(saves)
    {
      videos := videos[v.youtubeId := v];
    }

    /** `process_download_segment.delay(id)`. */
    method Enqueue(id: TaskId)
      requires Valid()
      modifies this
      ensures Valid()
      ensures queue == old(queue) + [id]
      ensures tasks == old(tasks) && videos == old(videos) && nextId == old(nextId) && saves == old(saves)
    {
      queue := queue + [id];
    }
  }
}
