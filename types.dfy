/** The records shared by the components: a signed-in user, a catalogue course and the contact form. */
module Types {
  import opened Wrappers

  datatype Role = Student | Instructor | Admin

  /**
   * A signed-in learner.  The two course counters are plain numbers: neither
   * is bounded below, and nothing ties `completedCourses` to `enrolledCourses`.
   */
  datatype User = User(
    id: string,
    name: string,
    email: string,
    avatar: Option<string>,
    role: Role,
    enrolledCourses: int,
    completedCourses: int,
    joinedDate: string)

  datatype Level = Beginner | Intermediate | Advanced

  /** The text the level is stored and selected as. */
  function LevelName(l: Level): string {
    match l
    case Beginner => "Beginner"
    case Intermediate => "Intermediate"
    case Advanced => "Advanced"
  }

  /** A catalogue entry (its floating-point rating and its image are not part of this model). */
  datatype Course = Course(
    id: string,
    title: string,
    description: string,
    instructor: string,
    duration: string,
    level: Level,
    category: string,
    price: int,
    students: int)

  /** The four inputs of the contact form, and the keys of its error record. */
  datatype Field = Name | Email | Subject | Message

  const AllFields: set<Field> := {Name, Email, Subject, Message}

  datatype ContactForm = ContactForm(name: string, email: string, subject: string, message: string)
  {
    /** `form[field]`. */
    function Get(f: Field): string {
      match f
      case Name => name
      case Email => email
      case Subject => subject
      case Message => message
    }

    /** `{ ...form, [field]: value }`. */
    function With(f: Field, value: string): (r: ContactForm)
      ensures r.Get(f) == value
      ensures forall g :: g != f ==> r.Get(g) == Get(g)
    {
      match f
      case Name => this.(name := value)
      case Email => this.(email := value)
      case Subject => this.(subject := value)
      case Message => this.(message := value)
    }
  }

  /** The form as first shown and as reset after a successful submission. */
  const EmptyForm := ContactForm("", "", "", "")

  lemma LevelNameInjective(a: Level, b: Level)
    ensures LevelName(a) == LevelName(b) <==> a == b
  {
  }
}
