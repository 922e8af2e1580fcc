/**
 * DefaultPreprocessor.java: clients post the text of an entry in its
 * description, so processing copies the description into the source.
 */
module DefaultPreprocessor {
  import opened Wrappers
  import opened LogEntity

  /** process: the entry with its source set to its description (null stays null). */
  function Process(log: Log): (r: Log)
    ensures r.source == log.description
    ensures r.description == log.description
    ensures r.(source := log.source) == log
  {
    log.(source := log.description)
  }

  /** Processing twice is processing once. */
  lemma ProcessIdempotent(log: Log)
    ensures Process(Process(log)) == Process(log)
  {
  }

  /**
   * The processed entry is equal (Log.equals) to the posted one, since equals
   * ignores the source.
   */
  lemma ProcessKeepsEquality(log: Log)
    requires log.level.Some?
    ensures LogEquals(Process(log), log) == Ok(true)
    ensures LogEquals(log, Process(log)) == Ok(true)
  {
  }
}
