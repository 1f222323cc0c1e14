/** The rows and request payloads the handlers exchange with the store (the
    generated `database` package's row and parameter structs, which are not
    part of this model; their fields are read off handlers/handlers.go and
    the table definitions in drivers/driver.go). */
module Records {
  import opened Common

  /** A `time.Time`, counted from Go's zero instant, so that `IsZero` is
      `== 0` and `After` is `>`. */
  type Time = int

  const ZeroTime: Time := 0

  /** A row of the users table. `password` holds the bcrypt hash. */
  datatype User = User(id: int, username: string, email: string, phone: string,
                       password: string, role: string)

  /** The body of POST /signup and POST /login (`CreateUserParams`). */
  datatype SignUpRequest = SignUpRequest(username: string, email: string, phone: string,
                                         password: string, role: string)

  /** A row of the career table; also the body of PUT /updatecareer/:id
      (`UpdateCareerByJobIdParams`), whose `jobid` the handler overwrites. */
  datatype Career = Career(jobid: int, company: string, position: string, jobtype: string,
                           description: string, startdate: Time, enddate: Time)

  /** The body of POST /createcareer (`CreateCareerParams`): no job id, the
      table assigns it. */
  datatype CareerInput = CareerInput(company: string, position: string, jobtype: string,
                                     description: string, startdate: Time, enddate: Time)

  /** The row CreateCareer inserts: the payload under the id the table assigns. */
  function WithJobId(c: CareerInput, id: int): Career {
    Career(id, c.company, c.position, c.jobtype, c.description, c.startdate, c.enddate)
  }

  /** What a failed `GetCareerByJobId` leaves in the variable: Go's zero struct. */
  const ZeroCareer := Career(0, "", "", "", "", ZeroTime, ZeroTime)

  /** A row of the profile table (`age` is the `Integer` column, a Go
      `int32`); also the body of PUT /update-profile/:id
      (`UpdateProfileByuserIdParams`), whose `userid` the handler overwrites. */
  datatype Profile = Profile(userid: int, fullname: string, age: int32, gender: string, address: string)

  /** The body of POST /createprofile (`CreateProfileParams`). */
  datatype ProfileInput = ProfileInput(fullname: string, age: int32, gender: string, address: string)

  /** The row CreateProfile inserts. */
  function WithUserId(p: ProfileInput, id: int): Profile {
    Profile(id, p.fullname, p.age, p.gender, p.address)
  }

  const ZeroProfile := Profile(0, "", 0, "", "")
}
