/** The two kinds of library entry an import can replace: `CleanSlateSubject` in `core/import_jobs.py`. */
module BeetsEntries {
  datatype Subject = Album | Track
}
