/** `getErrorMessage`: a closed table from the authentication backend's error
    strings to the messages the page shows, with one generic fallback. */
module ErrorMapper {

  /** `errorMappings`, as a closed table (no prototype keys). */
  const Mappings: map<string, string> := map[
    "Invalid credentials" := "Invalid credentials. Please try again.",
    "User not found" := "User not found. Check your User ID.",
    "Please check your input" := "Please check your User ID and password.",
    "Network error occurred" := "A network error occurred. Check your connection."
  ]

  const Fallback: string := "An error occurred during authentication. Please try again."

  /** `errorMappings[error] || fallback`: total and never empty; a known
      string gets its own tailored message, and the fallback is shown
      exactly for the strings outside the table. */
  function ErrorMessage(error: string): (m: string)
    ensures m != ""
    ensures error in Mappings ==> m == Mappings[error]
    ensures m == Fallback <==> error !in Mappings
  {
    if error in Mappings && Mappings[error] != "" then Mappings[error] else Fallback
  }

  /** Different known errors never share a message. */
  lemma KnownMessagesDistinct(a: string, b: string)
    requires a in Mappings && b in Mappings && a != b
    ensures ErrorMessage(a) != ErrorMessage(b)
  {
  }
}
