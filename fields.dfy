/** The property names the components read and write. Every name the code spells
    out has its own constructor; any other property a server record carries
    (timestamps, version counters, …) is `Other(name)`. Keys compare as values,
    so two records agree on a field exactly when they agree on its key. */
module Fields {

  datatype Key =
    | Id | UnderscoreId | Message
    | Nombre | Name | Apellido | LastName | FechaNacimiento | Birthday
    | Direccion | Address | Telefono | Telephone | FechaContratacion | HireDate
    | Email | Password | Dui | Issnumber | IsVerified
    | Descripcion | Precio | Stock
    | Titulo | Contenido | Imagen
    | Other(name: string)

  /** The property name as it is spelt in the source. */
  function PropertyName(k: Key): string {
    match k
    case Id => "id"
    case UnderscoreId => "_id"
    case Message => "message"
    case Nombre => "nombre"
    case Name => "name"
    case Apellido => "apellido"
    case LastName => "lastName"
    case FechaNacimiento => "fechaNacimiento"
    case Birthday => "birthday"
    case Direccion => "direccion"
    case Address => "address"
    case Telefono => "telefono"
    case Telephone => "telephone"
    case FechaContratacion => "fechaContratacion"
    case HireDate => "hireDate"
    case Email => "email"
    case Password => "password"
    case Dui => "dui"
    case Issnumber => "issnumber"
    case IsVerified => "isVerified"
    case Descripcion => "descripcion"
    case Precio => "precio"
    case Stock => "stock"
    case Titulo => "titulo"
    case Contenido => "contenido"
    case Imagen => "imagen"
    case Other(name) => name
  }
}
