/** The reserved vocabulary that the parser and the task model consult. Its
    tables live outside the modelled core, so every entry is a parameter:
    the command names (`ALL_CMDS`), the recognisers `IsValidPriority`,
    `IsValidStatus` and `IsValidUUID4String`, the two keywords
    (`IGNORE_CONTEXT_KEYWORD`, `NOTE_MODE_KEYWORD`), `STATUS_RESOLVED` and
    `PRIORITY_NORMAL`. */
module Vocab {
  datatype Vocabulary = Vocabulary(
    allCmds: seq<string>,
    isValidPriority: string -> bool,
    isValidStatus: string -> bool,
    isValidUuid4: string -> bool,
    ignoreContextKeyword: string,
    noteModeKeyword: string,
    statusResolved: string,
    priorityNormal: string)
}
