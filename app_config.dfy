/** The limits of the application configuration object. */
module AppConfig {

  /** How many files one submission (and one user's set of uploaded files) may hold. */
  const MaxFilesPerUser: nat := 10

  /** Pages allowed in one document. */
  const MaxPagesPerDocument: nat := 50
}
