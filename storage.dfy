/**
 * The browser's `localStorage`, holding the app's JSON arrays. Components
 * read a list, build a new one and store it back; the handlers that do so
 * take the store and overwrite the fields they write.
 */
module Storage {
  import opened Records

  class LocalStorage {
    var users: seq<User>
    var comprovantes: seq<Comprovante>
    var numerosRifa: seq<NumeroRifa>
    var sorteios: seq<Sorteio>
    var cupons: seq<Cupom>
    var systemConfig: SystemConfig

    constructor(users: seq<User>, comprovantes: seq<Comprovante>, numerosRifa: seq<NumeroRifa>,
                sorteios: seq<Sorteio>, cupons: seq<Cupom>, systemConfig: SystemConfig)
      ensures this.users == users && this.comprovantes == comprovantes
      ensures this.numerosRifa == numerosRifa && this.sorteios == sorteios
      ensures this.cupons == cupons && this.systemConfig == systemConfig
    {
      this.users := users;
      this.comprovantes := comprovantes;
      this.numerosRifa := numerosRifa;
      this.sorteios := sorteios;
      this.cupons := cupons;
      this.systemConfig := systemConfig;
    }
  }
}
