/** The OpenF1 records Formula 1 data arrives in (internal/f1/types.go). */
module F1Types {

  /** A race weekend. */
  datatype Meeting = Meeting(
    meetingKey: int,
    meetingName: string,
    officialName: string,
    location: string,
    countryName: string,
    circuitShortName: string,
    dateStart: string,
    dateEnd: string,
    year: int)

  /** A session of a weekend: practice, qualifying or the race. */
  datatype Session = Session(
    sessionKey: int,
    sessionType: string,
    sessionName: string,
    dateStart: string,
    dateEnd: string,
    circuitShortName: string,
    countryName: string,
    location: string,
    meetingKey: int)

  /** A driver's position at the instant `date` (an ISO 8601 timestamp string). */
  datatype Position = Position(driverNumber: int, position: int, date: string)

  datatype RaceControlMessage = RaceControlMessage(
    category: string,
    flag: string,
    message: string,
    lapNumber: int)

  /** A run on one set of tyres. */
  datatype Stint = Stint(
    driverNumber: int,
    stintNumber: int,
    compound: string,
    lapStart: int,
    lapEnd: int,
    tyreAgeAtFitting: int)

  datatype DriverInfo = DriverInfo(
    driverNumber: int,
    fullName: string,
    firstName: string,
    lastName: string,
    teamName: string,
    nameAcronym: string)

  /** Go's zero `DriverInfo{}`, what a lookup of an unknown driver number gives. */
  const NoDriverInfo: DriverInfo := DriverInfo(0, "", "", "", "", "")

  function MeetingKey(m: Meeting): int { m.meetingKey }
  function DriverKey(d: DriverInfo): int { d.driverNumber }
  function StintKey(s: Stint): int { s.driverNumber }
}
