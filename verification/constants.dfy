/** The path constants of archivist/constants.py that the modelled core uses. */
module Constants {

  /** First path segment of every endpoint below the base URL. */
  const Root := "archivist"

  /** Separator between path segments. */
  const Sep := "/"

  const LocationsSubpath := "v2"
  const LocationsLabel := "locations"
}
