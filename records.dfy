/**
 * The two persisted records the engine reads: a student's profile and a job
 * posting, reduced to the fields the engine looks at. Text fields that the
 * forms allow to be blank are empty strings, never absent.
 */
module Records {

  datatype Option<+T> = None | Some(value: T)

  /** A `DecimalField(max_digits=4, decimal_places=2)` validated to lie in
      [0, 10], counted in hundredths. */
  type Hundredths = x: int | 0 <= x <= 1000

  /** A student profile. `cgpa` is a nullable field. */
  datatype Profile = Profile(
    skills: string,
    interests: string,
    projects: string,
    certifications: string,
    preferredLocations: string,
    branch: string,
    cgpa: Option<Hundredths>)

  /** A job posting. */
  datatype Job = Job(
    title: string,
    company: string,
    description: string,
    requiredSkills: string,
    minCgpa: Hundredths,
    eligibleBranches: string,
    location: string)
}
