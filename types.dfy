/** The shared records and the page enumeration of the site. */
module Types {
  /** A service of the catalogue: its route id and its title (the texts and pictures are left out). */
  datatype Service = Service(id: string, title: string)

  /** A priced package; an absent `highlight` reads as false. */
  datatype Package = Package(
    id: string,
    name: string,
    price: string,
    features: seq<string>,
    highlight: bool)

  /** The string enumeration of the site's pages, in declaration order. */
  datatype PageState = HOME | SERVICES | PACKAGES | GALLERY | ABOUT | CONTACT | LOGIN

  /** The string value each enumeration member carries. */
  function PageValue(p: PageState): (v: string)
    ensures v != ""
  {
    match p
    case HOME => "HOME"
    case SERVICES => "SERVICES"
    case PACKAGES => "PACKAGES"
    case GALLERY => "GALLERY"
    case ABOUT => "ABOUT"
    case CONTACT => "CONTACT"
    case LOGIN => "LOGIN"
  }

  /** `Object.values(PageState)`: the members in declaration order. */
  const AllPageStates: seq<PageState> := [HOME, SERVICES, PACKAGES, GALLERY, ABOUT, CONTACT, LOGIN]

  datatype Role = User | Model

  /** One line of the concierge transcript. */
  datatype ChatMessage = ChatMessage(role: Role, text: string)
}
