/** A Desktop task is named by its host and thread. */
module Tasks {
  datatype TaskKey = TaskKey(hostID: string, threadID: string)

  function LocalKey(threadID: string): TaskKey {
    TaskKey("local", threadID)
  }
}
