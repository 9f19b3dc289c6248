/** The Python exceptions the modelled code lets escape. */
module Faults {
  datatype Fault =
    | IndexError                /** a list index past the end (`pieces[1]`, `schema_tables[-1]`) */
    | KeyError(key: string)     /** a dict lookup of a missing key */
    | MissingFile(path: string) /** a definition file that cannot be opened */
    | ValueError                /** a thread pool asked for no workers */
}
